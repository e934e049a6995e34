/** The alias index of the model catalog: what registered models claim, and which names are
    ambiguous because more than one model claims them. */
module ModelCatalogs {
  import opened Sequences
  import opened Entries
  import opened Projections

  type ModelId = string
  type Alias = string

  /** The parts of an entry that bear on identity. `valid` is the verdict of the metadata checks. */
  datatype ModelEntry = ModelEntry(
    canonicalId: Option<string>, id: string, provider: string, routeProvider: Option<string>,
    routeModelId: Option<string>, aliases: seq<string>, valid: bool)

  datatype Record = Record(entry: ModelEntry, routeModelId: string)

  datatype Refusal = InvalidEntry | AliasTaken(alias: Alias, owner: ModelId) | AliasAmbiguous(alias: Alias)

  /** Lower-casing. */
  type Folding = string -> string

  // ---------- names ----------

  function TrimStart(text: string): string {
    if text != "" && IsSpace(text[0]) then TrimStart(text[1..]) else text
  }

  function TrimEnd(text: string): string {
    if text != "" && IsSpace(text[|text| - 1]) then TrimEnd(text[..|text| - 1]) else text
  }

  function Trim(text: string): string {
    TrimEnd(TrimStart(text))
  }

  function IndexOfSlash(text: string, from: nat): (i: int)
    requires from <= |text|
    ensures i == -1 || from <= i < |text|
    decreases |text| - from
  {
    if from == |text| then -1 else if text[from] == '/' then from else IndexOfSlash(text, from + 1)
  }

  function ShortModelId(id: string): string {
    var separator := IndexOfSlash(id, 0);
    if separator >= 0 then id[separator + 1..] else id
  }

  function Or(value: Option<string>, other: string): string {
    if value.Some? then value.value else other
  }

  function CanonicalIdOf(entry: ModelEntry): ModelId {
    Trim(Or(entry.canonicalId, entry.id))
  }

  function RouteModelIdOf(entry: ModelEntry, fold: Folding): string {
    var provider := Trim(Or(entry.routeProvider, entry.provider));
    Trim(Or(entry.routeModelId, if fold(provider) == "openrouter" then entry.id else ShortModelId(entry.id)))
  }

  function CollectAliases(entry: ModelEntry, canonicalId: ModelId, routeModelId: string): seq<string> {
    [canonicalId, entry.id, routeModelId, ShortModelId(entry.id)] + entry.aliases
  }

  /** The names a record answers to. */
  function Names(entry: ModelEntry, canonicalId: ModelId, routeModelId: string, fold: Folding): (names: seq<Alias>)
  {
    var aliases := CollectAliases(entry, canonicalId, routeModelId);
    seq(|aliases|, i requires 0 <= i < |aliases| => fold(Trim(aliases[i])))
  }

  predicate NamesBlank(entry: ModelEntry, canonicalId: ModelId, routeModelId: string) {
    exists alias :: alias in CollectAliases(entry, canonicalId, routeModelId) && Blank(alias)
  }

  predicate WellFormedEntry(entry: ModelEntry, fold: Folding) {
    && entry.valid && !Blank(Or(entry.canonicalId, entry.id)) && !Blank(Or(entry.routeProvider, entry.provider))
    && RouteModelIdOf(entry, fold) != "" && !NamesBlank(entry, CanonicalIdOf(entry), RouteModelIdOf(entry, fold))
  }

  predicate AllSpace(text: string) {
    forall i :: 0 <= i < |text| ==> IsSpace(text[i])
  }

  lemma {:induction false} TrimStartSplits(text: string) returns (front: string)
    ensures AllSpace(front) && text == front + TrimStart(text)
    ensures TrimStart(text) != "" ==> !IsSpace(TrimStart(text)[0])
  {
    if text != "" && IsSpace(text[0]) {
      var rest := TrimStartSplits(text[1..]);
      front := [text[0]] + rest;
    } else {
      front := "";
    }
  }

  lemma {:induction false} TrimEndSplits(text: string) returns (back: string)
    ensures AllSpace(back) && text == TrimEnd(text) + back
    ensures TrimEnd(text) != "" ==> !IsSpace(TrimEnd(text)[|TrimEnd(text)| - 1])
  {
    if text != "" && IsSpace(text[|text| - 1]) {
      var rest := TrimEndSplits(text[..|text| - 1]);
      back := rest + [text[|text| - 1]];
      InitAndLast(text);
    } else {
      back := "";
    }
  }

  /** Trimming takes away white space at both ends, all of it, and nothing else. */
  lemma {:induction false} TrimExactly(text: string) returns (front: string, back: string)
    ensures AllSpace(front) && AllSpace(back) && text == front + Trim(text) + back
    ensures Trim(text) != "" ==> !IsSpace(Trim(text)[0]) && !IsSpace(Trim(text)[|Trim(text)| - 1])
    ensures Trim(text) == "" <==> Blank(text)
  {
    front := TrimStartSplits(text);
    back := TrimEndSplits(TrimStart(text));
    ConcatAssociates(front, Trim(text), back);
    assert Trim(text) != "" ==> Trim(text)[0] == TrimStart(text)[0];
    assert Trim(text) != "" ==> text[|front|] == Trim(text)[0];
  }

  /** The identity an entry asks for, and the route: what it names, trimmed; otherwise its id is its
      identity, and its route is its id, without the part in front of the first slash unless the
      provider is openrouter. */
  lemma {:induction false} IdentityAndRoute(entry: ModelEntry, fold: Folding)
    ensures CanonicalIdOf(entry) == Trim(if entry.canonicalId.Some? then entry.canonicalId.value else entry.id)
    ensures entry.routeModelId.Some? ==> RouteModelIdOf(entry, fold) == Trim(entry.routeModelId.value)
    ensures
      var provider := Trim(if entry.routeProvider.Some? then entry.routeProvider.value else entry.provider);
      && (entry.routeModelId.None? && fold(provider) == "openrouter" ==> RouteModelIdOf(entry, fold) == Trim(entry.id))
      && (entry.routeModelId.None? && fold(provider) != "openrouter" && '/' !in entry.id ==>
            RouteModelIdOf(entry, fold) == Trim(entry.id))
      && (forall a, b :: entry.routeModelId.None? && fold(provider) != "openrouter" && entry.id == a + "/" + b && '/' !in a ==>
            RouteModelIdOf(entry, fold) == Trim(b))
  {
    if '/' !in entry.id { NoSlash(entry.id, 0); }
    forall a, b | entry.id == a + "/" + b && '/' !in a ensures b == ShortModelId(entry.id) { BehindFirstSlash(a, b); }
  }

  lemma {:induction false} NoSlash(text: string, from: nat)
    requires from <= |text| && '/' !in text
    ensures IndexOfSlash(text, from) == -1
    decreases |text| - from
  {
    if from < |text| {
      assert text[from] in text;
      NoSlash(text, from + 1);
    }
  }

  /** An entry is well formed exactly if its metadata are valid and nothing it is named by is blank. */
  lemma {:induction false} WellFormedExactly(entry: ModelEntry, fold: Folding)
    ensures WellFormedEntry(entry, fold) <==>
            && entry.valid && CanonicalIdOf(entry) != "" && RouteModelIdOf(entry, fold) != ""
            && !Blank(if entry.routeProvider.Some? then entry.routeProvider.value else entry.provider)
            && !Blank(entry.id) && !Blank(ShortModelId(entry.id)) && forall alias :: alias in entry.aliases ==> !Blank(alias)
  {
    var front, back := TrimExactly(Or(entry.canonicalId, entry.id));
    var canonicalId, routeModelId := CanonicalIdOf(entry), RouteModelIdOf(entry, fold);
    TrimmedIsNotBlank(Or(entry.canonicalId, entry.id));
    TrimmedIsNotBlank(Or(entry.routeModelId, if fold(Trim(Or(entry.routeProvider, entry.provider))) == "openrouter"
                                             then entry.id else ShortModelId(entry.id)));
    CollectedNames(entry, canonicalId, routeModelId);
  }

  lemma {:induction false} TrimmedIsNotBlank(text: string)
    ensures Blank(Trim(text)) <==> Trim(text) == ""
  {
    var front, back := TrimExactly(text);
  }

  lemma {:induction false} CollectedNames(entry: ModelEntry, canonicalId: ModelId, routeModelId: string)
    ensures forall alias :: alias in CollectAliases(entry, canonicalId, routeModelId) <==>
              alias == canonicalId || alias == entry.id || alias == routeModelId || alias == ShortModelId(entry.id) || alias in entry.aliases
  {
    FirstNames(entry, canonicalId, routeModelId, text => text);
  }

  // ---------- the index ----------

  type Claims = set<(ModelId, Alias)>
  type Index = map<Alias, Option<ModelId>>

  function ClaimsOf(id: ModelId, names: seq<Alias>): Claims {
    set i | 0 <= i < |names| :: (id, names[i])
  }

  /** A name resolves to its only claimant, is ambiguous with several, and is absent with none. */
  ghost predicate Indexes(index: Index, claims: Claims) {
    && (forall id, alias :: (id, alias) in claims ==> alias in index)
    && (forall alias :: alias in index ==>
          match index[alias]
          case Some(id) => (id, alias) in claims && forall other :: (other, alias) in claims ==> other == id
          case None => exists a, b :: a != b && (a, alias) in claims && (b, alias) in claims)
  }

  /** An index is determined by the claims. */
  lemma {:induction false} IndexIsUnique(a: Index, b: Index, claims: Claims)
    requires Indexes(a, claims) && Indexes(b, claims)
    ensures a == b
  {
    SameNamesIndexed(a, b, claims);
    SameNamesIndexed(b, a, claims);
    forall alias | alias in a ensures a[alias] == b[alias] { SameAnswer(a, b, claims, alias); }
  }

  lemma {:induction false} SameNamesIndexed(a: Index, b: Index, claims: Claims)
    requires Indexes(a, claims) && Indexes(b, claims)
    ensures a.Keys <= b.Keys
  {
    forall alias | alias in a ensures alias in b {
      if a[alias].Some? {
        assert (a[alias].value, alias) in claims;
      } else {
        var x, y :| x != y && (x, alias) in claims && (y, alias) in claims;
      }
    }
  }

  lemma {:induction false} AmbiguousInBoth(a: Index, b: Index, claims: Claims, alias: Alias)
    requires Indexes(a, claims) && Indexes(b, claims) && alias in a && alias in b && a[alias] == None
    ensures b[alias] == None
  {
    var x, y :| x != y && (x, alias) in claims && (y, alias) in claims;
  }

  lemma {:induction false} SameAnswer(a: Index, b: Index, claims: Claims, alias: Alias)
    requires Indexes(a, claims) && Indexes(b, claims) && alias in a && alias in b
    ensures a[alias] == b[alias]
  {
    if a[alias] == None { AmbiguousInBoth(a, b, claims, alias); }
    if b[alias] == None { AmbiguousInBoth(b, a, claims, alias); }
  }

  /** One claim more: a name another model has becomes ambiguous and stays so. */
  function Claim(index: Index, alias: Alias, id: ModelId): Index {
    if alias in index && index[alias] != Some(id) then index[alias := None] else index[alias := Some(id)]
  }

  lemma {:induction false} ClaimIsIndexed(index: Index, claims: Claims, alias: Alias, id: ModelId)
    requires Indexes(index, claims)
    ensures Indexes(Claim(index, alias, id), claims + {(id, alias)})
  {
    var after, more := Claim(index, alias, id), claims + {(id, alias)};
    forall name | name in after
      ensures match after[name]
              case Some(one) => (one, name) in more && forall other :: (other, name) in more ==> other == one
              case None => exists a, b :: a != b && (a, name) in more && (b, name) in more
    {
      if name != alias {
        OtherNameStays(index, claims, name, alias, id);
      } else if alias in index {
        SharedName(index, claims, alias, id);
      }
    }
  }

  lemma {:induction false} OtherNameStays(index: Index, claims: Claims, name: Alias, alias: Alias, id: ModelId)
    requires Indexes(index, claims) && name in index && name != alias
    ensures match index[name]
            case Some(one) => (one, name) in claims + {(id, alias)} && forall other :: (other, name) in claims + {(id, alias)} ==> other == one
            case None => exists a, b :: a != b && (a, name) in claims + {(id, alias)} && (b, name) in claims + {(id, alias)}
  {
    if index[name].None? {
      var a, b :| a != b && (a, name) in claims && (b, name) in claims;
      assert (a, name) in claims + {(id, alias)} && (b, name) in claims + {(id, alias)};
    }
  }

  lemma {:induction false} SharedName(index: Index, claims: Claims, alias: Alias, id: ModelId)
    requires Indexes(index, claims) && alias in index
    ensures index[alias] == Some(id) ==> forall other :: (other, alias) in claims + {(id, alias)} ==> other == id
    ensures index[alias] != Some(id) ==>
              exists a, b :: a != b && (a, alias) in claims + {(id, alias)} && (b, alias) in claims + {(id, alias)}
  {
    var more := claims + {(id, alias)};
    if index[alias].None? {
      var a, b :| a != b && (a, alias) in claims && (b, alias) in claims;
      assert (a, alias) in more && (b, alias) in more;
    } else if index[alias] != Some(id) {
      var other := index[alias].value;
      assert (other, alias) in more && (id, alias) in more && other != id;
    }
  }

  // ---------- the catalog ----------

  type Records = map<ModelId, Record>

  function RecordClaims(id: ModelId, record: Record, fold: Folding): Claims {
    ClaimsOf(id, Names(record.entry, id, record.routeModelId, fold))
  }

  /** Everything the registered models claim, whatever the order of registration. */
  function AllClaims(records: Records, fold: Folding): Claims {
    set id, i | id in records && 0 <= i < |Names(records[id].entry, id, records[id].routeModelId, fold)| ::
      (id, Names(records[id].entry, id, records[id].routeModelId, fold)[i])
  }

  function Only(records: Records, order: seq<ModelId>): Records
    requires forall i :: 0 <= i < |order| ==> order[i] in records
  {
    map id | id in order :: records[id]
  }

  lemma {:induction false} OneMoreRecord(records: Records, order: seq<ModelId>, id: ModelId, fold: Folding)
    requires (forall i :: 0 <= i < |order| ==> order[i] in records) && id in records
    ensures forall i :: 0 <= i < |order + [id]| ==> (order + [id])[i] in records
    ensures AllClaims(Only(records, order + [id]), fold) == AllClaims(Only(records, order), fold) + RecordClaims(id, records[id], fold)
  {
    var few, more := Only(records, order), Only(records, order + [id]);
    forall claim | claim in AllClaims(more, fold) ensures claim in AllClaims(few, fold) + RecordClaims(id, records[id], fold) {
      var m, i :| m in more && 0 <= i < |Names(more[m].entry, m, more[m].routeModelId, fold)| &&
                  claim == (m, Names(more[m].entry, m, more[m].routeModelId, fold)[i]);
      if m != id { assert m in few && few[m] == more[m]; }
    }
    forall claim | claim in AllClaims(few, fold) ensures claim in AllClaims(more, fold) {
      var m, i :| m in few && 0 <= i < |Names(few[m].entry, m, few[m].routeModelId, fold)| &&
                  claim == (m, Names(few[m].entry, m, few[m].routeModelId, fold)[i]);
      assert m in more && more[m] == few[m];
    }
    forall claim | claim in RecordClaims(id, records[id], fold) ensures claim in AllClaims(more, fold) {
      assert id in more && more[id] == records[id];
    }
  }

  lemma {:induction false} OneMoreName(id: ModelId, names: seq<Alias>, k: nat)
    requires k < |names|
    ensures ClaimsOf(id, names[..k + 1]) == ClaimsOf(id, names[..k]) + {(id, names[k])}
  {
    TakeOneMore(names, k);
    forall claim | claim in ClaimsOf(id, names[..k + 1]) ensures claim in ClaimsOf(id, names[..k]) + {(id, names[k])} {
      var i :| 0 <= i < k + 1 && claim == (id, names[..k + 1][i]);
      if i < k { assert names[..k][i] == names[..k + 1][i]; }
    }
    forall claim | claim in ClaimsOf(id, names[..k]) ensures claim in ClaimsOf(id, names[..k + 1]) {
      var i :| 0 <= i < k && claim == (id, names[..k][i]);
      assert names[..k + 1][i] == names[..k][i];
    }
    assert names[..k + 1][k] == names[k];
  }

  lemma {:induction false} AllOfThem(records: Records, order: seq<ModelId>)
    requires forall id :: id in records <==> id in order
    ensures Only(records, order) == records
  {
  }

  /** The aliases an entry asks for by itself, folded. */
  function ExplicitNames(entry: ModelEntry, fold: Folding): set<Alias> {
    set alias | alias in entry.aliases :: fold(Trim(alias))
  }

  lemma {:induction false} AskedAreNames(entry: ModelEntry, id: ModelId, routeModelId: string, fold: Folding)
    ensures forall name :: name in ExplicitNames(entry, fold) ==> name in Names(entry, id, routeModelId, fold)
  {
    var names := Names(entry, id, routeModelId, fold);
    forall alias | alias in entry.aliases ensures fold(Trim(alias)) in names {
      var i :| 0 <= i < |entry.aliases| && entry.aliases[i] == alias;
      assert names[i + 4] == fold(Trim(alias));
    }
  }

  /** What a registered model answers to: its canonical id, the id it was given, what stands behind the
      first slash of that, its route id, and every alias, trimmed and folded. */
  lemma {:induction false} RecordClaimsItsNames(records: Records, id: ModelId, fold: Folding)
    requires id in records
    ensures
      var claims, entry := AllClaims(records, fold), records[id].entry;
      && (id, fold(Trim(id))) in claims && (id, fold(Trim(entry.id))) in claims
      && (id, fold(Trim(records[id].routeModelId))) in claims
      && (forall a, b :: entry.id == a + "/" + b && '/' !in a ==> (id, fold(Trim(b))) in claims)
      && (forall alias :: alias in entry.aliases ==> (id, fold(Trim(alias))) in claims)
  {
    var entry := records[id].entry;
    FirstNames(entry, id, records[id].routeModelId, fold);
    forall alias | alias in [id, entry.id, records[id].routeModelId, ShortModelId(entry.id)] + entry.aliases
      ensures (id, fold(Trim(alias))) in AllClaims(records, fold)
    {
      NameIsClaimed(records, id, fold, alias);
    }
    forall a, b | entry.id == a + "/" + b && '/' !in a ensures b == ShortModelId(entry.id) { BehindFirstSlash(a, b); }
  }

  lemma {:induction false} FirstNames(entry: ModelEntry, id: ModelId, routeModelId: string, fold: Folding)
    ensures
      var all := [id, entry.id, routeModelId, ShortModelId(entry.id)] + entry.aliases;
      id in all && entry.id in all && routeModelId in all && ShortModelId(entry.id) in all &&
      forall alias :: alias in entry.aliases ==> alias in all
  {
    var all := [id, entry.id, routeModelId, ShortModelId(entry.id)] + entry.aliases;
    assert all[0] == id && all[1] == entry.id && all[2] == routeModelId && all[3] == ShortModelId(entry.id);
  }

  lemma {:induction false} NameIsClaimed(records: Records, id: ModelId, fold: Folding, alias: string)
    requires id in records
    requires alias in [id, records[id].entry.id, records[id].routeModelId, ShortModelId(records[id].entry.id)] + records[id].entry.aliases
    ensures (id, fold(Trim(alias))) in AllClaims(records, fold)
  {
    var all := [id, records[id].entry.id, records[id].routeModelId, ShortModelId(records[id].entry.id)] + records[id].entry.aliases;
    var i :| 0 <= i < |all| && all[i] == alias;
    assert Names(records[id].entry, id, records[id].routeModelId, fold)[i] == fold(Trim(alias));
  }

  lemma {:induction false} SlashBehind(text: string, from: nat, slash: nat)
    requires from <= slash < |text| && text[slash] == '/' && forall i :: from <= i < slash ==> text[i] != '/'
    ensures IndexOfSlash(text, from) == slash
    decreases slash - from
  {
    if from < slash { SlashBehind(text, from + 1, slash); }
  }

  lemma {:induction false} BehindFirstSlash(a: string, b: string)
    requires '/' !in a
    ensures ShortModelId(a + "/" + b) == b
  {
    SlashBehind(a + "/" + b, 0, |a|);
  }

  predicate ClaimedByOther(claims: Claims, id: ModelId, alias: Alias) {
    exists claim :: claim in claims && claim.1 == alias && claim.0 != id
  }

  /** What an answer to a registration says about the claims there were. */
  ghost predicate Verdict(failure: Option<Refusal>, claims: Claims, id: ModelId, asked: set<Alias>) {
    match failure
    case None => forall alias :: alias in asked ==> !ClaimedByOther(claims, id, alias)
    case Some(AliasTaken(alias, owner)) =>
      alias in asked && owner != id && forall other :: (other, alias) in claims <==> other == owner
    case Some(AliasAmbiguous(alias)) =>
      alias in asked && exists a, b :: a != b && (a, alias) in claims && (b, alias) in claims
    case Some(InvalidEntry) => false
  }

  /** The answers exclude each other: a registration is refused exactly when somebody else claims a
      name it asks for, and for a taken name exactly when that name has one claimant. */
  lemma {:induction false} RefusedExactly(failure: Option<Refusal>, claims: Claims, id: ModelId, asked: set<Alias>)
    requires Verdict(failure, claims, id, asked)
    ensures failure.Some? <==> exists alias :: alias in asked && ClaimedByOther(claims, id, alias)
    ensures failure.Some? && failure.value.AliasTaken? ==>
              !exists a, b :: a != b && (a, failure.value.alias) in claims && (b, failure.value.alias) in claims
  {
    if failure.Some? && failure.value.AliasTaken? {
      assert (failure.value.owner, failure.value.alias) in claims;
    } else if failure.Some? {
      var alias := failure.value.alias;
      var a, b :| a != b && (a, alias) in claims && (b, alias) in claims;
      assert (if a != id then (a, alias) else (b, alias)) in claims;
      assert ClaimedByOther(claims, id, alias);
    }
  }

  predicate SameIn(index: Index, other: Index, name: Alias) {
    (name in index <==> name in other) && (name in index ==> index[name] == other[name])
  }

  predicate Cleared(index: Index, cleared: Index, id: ModelId) {
    cleared == index || cleared == map alias | alias in index && index[alias] != Some(id) :: index[alias]
  }

  /** The index without what only the model itself claims still tells who else claims a name. */
  lemma {:induction false} ClearedSays(index: Index, cleared: Index, claims: Claims, id: ModelId, name: Alias)
    requires Indexes(index, claims)
    requires Cleared(index, cleared, id)
    ensures ClaimedByOther(claims, id, name) <==> name in cleared && cleared[name] != Some(id)
    ensures name in cleared && cleared[name].Some? && cleared[name] != Some(id) ==>
              forall other :: (other, name) in claims <==> other == cleared[name].value
    ensures name in cleared && cleared[name].None? ==> exists a, b :: a != b && (a, name) in claims && (b, name) in claims
  {
    assert name in cleared ==> name in index && cleared[name] == index[name];
    if ClaimedByOther(claims, id, name) {
      var claim :| claim in claims && claim.1 == name && claim.0 != id;
      assert claim == (claim.0, name);
    }
    if name in cleared && cleared[name] != Some(id) {
      if cleared[name].Some? {
        assert (cleared[name].value, name) in claims;
      } else {
        var a, b :| a != b && (a, name) in claims && (b, name) in claims;
        assert (if a != id then (a, name) else (b, name)) in claims;
      }
    }
  }

  // ---------- a registration, from any index ----------

  /** The index a registration starts with: a model that is replaced loses what it alone has. */
  function StartingIndex(index: Index, known: bool, id: ModelId): Index {
    if known then map alias | alias in index && index[alias] != Some(id) :: index[alias] else index
  }

  predicate Conflicts(index: Index, id: ModelId, name: Alias) {
    name in index && index[name] != Some(id)
  }

  /** A name that was not asked for is given up to ambiguity; one that is ambiguous is taken over. */
  function ClaimedNext(index: Index, id: ModelId, name: Alias): Index {
    if name in index && index[name].Some? && index[name] != Some(id) then index[name := None] else index[name := Some(id)]
  }

  function ClaimedUpTo(index: Index, id: ModelId, names: seq<Alias>): Index {
    if names == [] then index
    else ClaimedNext(ClaimedUpTo(index, id, names[..|names| - 1]), id, names[|names| - 1])
  }

  predicate Accepts(start: Index, id: ModelId, asked: set<Alias>) {
    forall name :: name in asked ==> !Conflicts(start, id, name)
  }

  predicate AcceptsUpTo(start: Index, id: ModelId, asked: set<Alias>, names: seq<Alias>, k: nat)
    requires k <= |names|
  {
    forall j :: 0 <= j < k && names[j] in asked ==> !Conflicts(start, id, names[j])
  }

  /** The k-th name is the first that was asked for and is not the model's to have. */
  predicate RefusedAt(start: Index, id: ModelId, asked: set<Alias>, names: seq<Alias>, k: nat) {
    k < |names| && names[k] in asked && Conflicts(start, id, names[k]) && AcceptsUpTo(start, id, asked, names, k)
  }

  function ReasonFor(start: Index, name: Alias): Refusal
    requires name in start
  {
    if start[name].Some? then AliasTaken(name, start[name].value) else AliasAmbiguous(name)
  }

  /** What a refusal reports, and the index it leaves behind: the names before it are claimed. */
  ghost predicate Refuses(start: Index, id: ModelId, asked: set<Alias>, names: seq<Alias>, reason: Refusal, left: Index) {
    exists k: nat :: RefusedAt(start, id, asked, names, k) && reason == ReasonFor(start, names[k]) &&
                     left == ClaimedUpTo(start, id, names[..k])
  }

  lemma {:induction false} OnlyNamesChange(start: Index, id: ModelId, names: seq<Alias>, name: Alias)
    ensures name !in names ==> SameIn(ClaimedUpTo(start, id, names), start, name)
  {
    if names != [] {
      InitAndLast(names);
      OnlyNamesChange(start, id, names[..|names| - 1], name);
    }
  }

  /** A name asked for that is free, or the model's, is the model's from then on. */
  lemma {:induction false} AskedBecomesOwn(start: Index, id: ModelId, names: seq<Alias>, name: Alias)
    requires name in names && !Conflicts(start, id, name)
    ensures name in ClaimedUpTo(start, id, names) && ClaimedUpTo(start, id, names)[name] == Some(id)
  {
    var init, last := names[..|names| - 1], names[|names| - 1];
    InitAndLast(names);
    if name in init {
      AskedBecomesOwn(start, id, init, name);
    } else {
      OnlyNamesChange(start, id, init, name);
    }
  }

  lemma {:induction false} AskedNow(start: Index, id: ModelId, names: seq<Alias>, name: Alias)
    ensures Conflicts(start, id, name) && name !in names ==> SameIn(ClaimedUpTo(start, id, names), start, name)
    ensures !Conflicts(start, id, name) ==> !Conflicts(ClaimedUpTo(start, id, names), id, name)
  {
    OnlyNamesChange(start, id, names, name);
    if !Conflicts(start, id, name) && name in names { AskedBecomesOwn(start, id, names, name); }
  }

  lemma {:induction false} AskedMeetsStart(start: Index, id: ModelId, asked: set<Alias>, names: seq<Alias>, k: nat)
    requires k < |names| && names[k] in asked && AcceptsUpTo(start, id, asked, names, k)
    ensures
      var now := ClaimedUpTo(start, id, names[..k]);
      && (Conflicts(now, id, names[k]) <==> Conflicts(start, id, names[k]))
      && (Conflicts(now, id, names[k]) ==> now[names[k]] == start[names[k]])
  {
    var name := names[k];
    AskedNow(start, id, names[..k], name);
    if name in names[..k] {
      var j :| 0 <= j < k && names[..k][j] == name;
      assert names[j] == name;
    }
  }

  /** With an exact index the answer says what the claims are. */
  lemma {:induction false} VerdictOfClaims(index: Index, start: Index, claims: Claims, id: ModelId, asked: set<Alias>,
                                           names: seq<Alias>, failure: Option<Refusal>, left: Index)
    requires Indexes(index, claims) && Cleared(index, start, id)
    requires if failure.None? then Accepts(start, id, asked) else Refuses(start, id, asked, names, failure.value, left)
    ensures Verdict(failure, claims, id, asked)
  {
    if failure.None? {
      forall name | name in asked ensures !ClaimedByOther(claims, id, name) {
        ClearedSays(index, start, claims, id, name);
      }
    } else {
      var k: nat :| RefusedAt(start, id, asked, names, k) && failure.value == ReasonFor(start, names[k]) &&
                    left == ClaimedUpTo(start, id, names[..k]);
      ClearedSays(index, start, claims, id, names[k]);
    }
  }

  /** After a refused registration a name that nobody else shared and that is not asked for again is
      gone from the index, although the model keeps its record. */
  lemma {:induction false} RefusalLosesAliases(index: Index, id: ModelId, asked: set<Alias>, names: seq<Alias>,
                                               reason: Refusal, left: Index, alias: Alias)
    requires Refuses(StartingIndex(index, true, id), id, asked, names, reason, left)
    requires alias in index && index[alias] == Some(id) && alias !in names
    ensures alias !in left
  {
    var start := StartingIndex(index, true, id);
    var k: nat :| RefusedAt(start, id, asked, names, k) && reason == ReasonFor(start, names[k]) &&
                  left == ClaimedUpTo(start, id, names[..k]);
    assert alias !in names[..k];
    OnlyNamesChange(start, id, names[..k], alias);
  }

  class ModelCatalog {
    const fold: Folding
    var records: Records
    /** Insertion order of the records. */
    var order: seq<ModelId>
    var aliases: Index

    ghost predicate Valid()
      reads this
    {
      Distinct(order) && forall id :: id in records <==> id in order
    }

    /** The index says of every name exactly who claims it. */
    ghost predicate Indexed()
      reads this
    {
      Valid() && Indexes(aliases, AllClaims(records, fold))
    }

    constructor (fold: Folding)
      ensures Indexed() && records == map[] && this.fold == fold
    {
      this.fold := fold;
      records, order, aliases := map[], [], map[];
      new;
      assert AllClaims(records, fold) == {};
    }

    method RebuildAliases()
      requires Valid()
      modifies this`aliases
      ensures Indexed()
    {
      aliases := map[];
      assert AllClaims(Only(records, []), fold) == {};
      for i := 0 to |order|
        invariant Indexes(aliases, AllClaims(Only(records, order[..i]), fold))
      {
        var id := order[i];
        TakeOneMore(order, i);
        OneMoreRecord(records, order[..i], id, fold);
        ClaimNames(id, Names(records[id].entry, id, records[id].routeModelId, fold), AllClaims(Only(records, order[..i]), fold));
      }
      TakeAll(order);
      AllOfThem(records, order);
    }

    method ClaimNames(id: ModelId, names: seq<Alias>, ghost claims: Claims)
      requires Indexes(aliases, claims)
      modifies this`aliases
      ensures Indexes(aliases, claims + ClaimsOf(id, names))
    {
      assert claims + ClaimsOf(id, names[..0]) == claims;
      for k := 0 to |names|
        invariant Indexes(aliases, claims + ClaimsOf(id, names[..k]))
      {
        OneMoreName(id, names, k);
        ClaimIsIndexed(aliases, claims + ClaimsOf(id, names[..k]), names[k], id);
        assert claims + ClaimsOf(id, names[..k]) + {(id, names[k])} == claims + ClaimsOf(id, names[..k + 1]);
        if names[k] in aliases && aliases[names[k]] != Some(id) {
          aliases := aliases[names[k] := None];
        } else {
          aliases := aliases[names[k] := Some(id)];
        }
      }
      TakeAll(names);
    }

    method RemoveAliasesFor(id: ModelId)
      modifies this`aliases
      ensures aliases == map alias | alias in old(aliases) && old(aliases)[alias] != Some(id) :: old(aliases)[alias]
    {
      aliases := map alias | alias in aliases && aliases[alias] != Some(id) :: aliases[alias];
    }

    /** Claims one name after the other, up to one that was asked for and belongs to another. */
    method ClaimAsked(id: ModelId, names: seq<Alias>, asked: set<Alias>) returns (failure: Option<Refusal>)
      requires forall name :: name in asked ==> name in names
      modifies this`aliases
      ensures failure.None? <==> Accepts(old(aliases), id, asked)
      ensures failure.Some? ==> Refuses(old(aliases), id, asked, names, failure.value, aliases)
    {
      ghost var start := aliases;
      for k := 0 to |names|
        invariant aliases == ClaimedUpTo(start, id, names[..k]) && AcceptsUpTo(start, id, asked, names, k)
      {
        var name := names[k];
        TakeOneMore(names, k);
        if name in asked { AskedMeetsStart(start, id, asked, names, k); }
        if name in aliases && aliases[name].Some? && aliases[name] != Some(id) {
          if name in asked {
            assert RefusedAt(start, id, asked, names, k);
            return Some(AliasTaken(name, aliases[name].value));
          }
          aliases := aliases[name := None];
        } else if name in aliases && aliases[name].None? && name in asked {
          assert RefusedAt(start, id, asked, names, k);
          return Some(AliasAmbiguous(name));
        } else {
          aliases := aliases[name := Some(id)];
        }
      }
      return None;
    }

    /** Replaces the record of the same canonical id. A refusal leaves the records alone and the index
        between two states; the next success sets it right. From an exact index, a well-formed entry is
        refused for a name it asks for that somebody else claims; from any index, for the first such
        name that the index gives to somebody else or to several. */
    method RegisterModel(entry: ModelEntry) returns (failure: Option<Refusal>)
      requires Valid()
      modifies this`records, this`order, this`aliases
      ensures Valid()
      ensures failure.Some? ==> records == old(records) && order == old(order)
      ensures failure == Some(InvalidEntry) <==> !WellFormedEntry(entry, fold)
      ensures failure == Some(InvalidEntry) ==> aliases == old(aliases)
      ensures failure.None? ==>
                Indexed() && records == old(records)[CanonicalIdOf(entry) := Record(entry, RouteModelIdOf(entry, fold))]
      ensures WellFormedEntry(entry, fold) ==>
                var id := CanonicalIdOf(entry);
                var start := StartingIndex(old(aliases), id in old(records), id);
                var asked := ExplicitNames(entry, fold);
                && (failure.None? <==> Accepts(start, id, asked))
                && (failure.Some? ==>
                      Refuses(start, id, asked, Names(entry, id, RouteModelIdOf(entry, fold), fold), failure.value, aliases))
      ensures old(Indexed()) && WellFormedEntry(entry, fold) ==>
                Verdict(failure, AllClaims(old(records), fold), CanonicalIdOf(entry), ExplicitNames(entry, fold))
    {
      if !WellFormedEntry(entry, fold) { return Some(InvalidEntry); }
      var id, routeModelId := CanonicalIdOf(entry), RouteModelIdOf(entry, fold);
      var names := Names(entry, id, routeModelId, fold);
      var asked := ExplicitNames(entry, fold);
      AskedAreNames(entry, id, routeModelId, fold);
      ghost var before, claims, exact := aliases, AllClaims(records, fold), Indexed();
      if id in records { RemoveAliasesFor(id); }
      ghost var start := aliases;
      failure := ClaimAsked(id, names, asked);
      if exact { VerdictOfClaims(before, start, claims, id, asked, names, failure, aliases); }
      if failure.Some? { return; }
      StoreRecord(id, Record(entry, routeModelId));
    }

    method StoreRecord(id: ModelId, record: Record)
      requires Valid()
      modifies this`records, this`order, this`aliases
      ensures Indexed() && records == old(records)[id := record]
    {
      if id !in records { order := order + [id]; }
      records := records[id := record];
      RebuildAliases();
    }

    function ResolveCanonicalId(idOrAlias: string): Option<ModelId>
      reads this
    {
      var query := Trim(idOrAlias);
      if Blank(idOrAlias) then None
      else if query in records then Some(query)
      else if fold(query) in aliases then aliases[fold(query)]
      else None
    }

    /** Removes a model by any name that resolves to one that is registered. */
    method UnregisterModel(idOrAlias: string) returns (removed: bool)
      requires Valid()
      modifies this`records, this`order, this`aliases
      ensures Valid()
      ensures var id := old(ResolveCanonicalId(idOrAlias));
              removed == (id.Some? && id.value != "" && id.value in old(records))
      ensures removed ==> Indexed() && records == old(records) - {old(ResolveCanonicalId(idOrAlias)).value}
      ensures !removed ==> records == old(records)
    {
      var id := ResolveCanonicalId(idOrAlias);
      if id.None? || id.value == "" { return false; }
      RemoveAliasesFor(id.value);
      removed := id.value in records;
      if removed {
        records := records - {id.value};
        order := WithoutId(order, id.value);
        WithoutIdMembers(old(order), id.value);
        RebuildAliases();
      }
    }
  }

  function WithoutId(order: seq<ModelId>, id: ModelId): seq<ModelId> {
    if order == [] then []
    else
      var init, last := order[..|order| - 1], order[|order| - 1];
      if last == id then WithoutId(init, id) else WithoutId(init, id) + [last]
  }

  lemma {:induction false} WithoutIdMembers(order: seq<ModelId>, id: ModelId)
    requires Distinct(order)
    ensures Distinct(WithoutId(order, id))
    ensures forall other :: other in WithoutId(order, id) <==> other in order && other != id
  {
    if order != [] {
      WithoutIdMembers(order[..|order| - 1], id);
      InitAndLast(order);
      assert order[|order| - 1] !in order[..|order| - 1];
    }
  }

  /** In an exact index, a name that is nobody's canonical id resolves to a model exactly when that
      model alone claims it; canonical ids always resolve to themselves. */
  lemma {:induction false} ResolvesToOnlyClaimant(catalog: ModelCatalog, name: string, id: ModelId)
    requires catalog.Indexed() && !Blank(name)
    ensures
      var query := Trim(name);
      var claims := AllClaims(catalog.records, catalog.fold);
      catalog.ResolveCanonicalId(name) == Some(id) <==>
        if query in catalog.records then id == query
        else (id, catalog.fold(query)) in claims && forall other :: (other, catalog.fold(query)) in claims ==> other == id
  {
    var alias := catalog.fold(Trim(name));
    if alias in catalog.aliases && catalog.aliases[alias].None? {
      var a, b :| a != b && (a, alias) in AllClaims(catalog.records, catalog.fold) && (b, alias) in AllClaims(catalog.records, catalog.fold);
    }
  }

  // ---------- a refused registration that loses an alias ----------

  const TWO_CLAIMS: Claims := {("x", "x"), ("x", "f"), ("y", "y"), ("y", "s")}
  const TWO_MODELS: Index := map["x" := Some("x"), "f" := Some("x"), "y" := Some("y"), "s" := Some("y")]
  const ONE_LEFT: Index := map["y" := Some("y"), "s" := Some("y"), "x" := Some("x"), "q" := Some("x")]

  const WITHOUT_FIRST: Index := map["y" := Some("y"), "s" := Some("y")]

  lemma {:induction false} TwoAreIndexed()
    ensures Indexes(TWO_MODELS, TWO_CLAIMS) && StartingIndex(TWO_MODELS, true, "x") == WITHOUT_FIRST
  {
  }

  lemma {:induction false} FirstFiveClaimed(names: seq<Alias>)
    requires names == ["x", "x", "x", "x", "q", "s"]
    ensures ClaimedUpTo(WITHOUT_FIRST, "x", names[..5]) == ONE_LEFT
  {
    OwnNameOnly(WITHOUT_FIRST, "x", names[..4]);
    TakeOneMore(names, 4);
  }

  /** One model has the alias f, another the alias s. The first is registered again with the aliases q
      and s instead: it is refused, f is gone from the index, and q has come into it. */
  lemma {:induction false} RefusedModelLosesAlias()
    ensures Indexes(TWO_MODELS, TWO_CLAIMS) && "f" in TWO_MODELS && "f" !in ONE_LEFT
    ensures Refuses(StartingIndex(TWO_MODELS, true, "x"), "x", {"q", "s"}, ["x", "x", "x", "x", "q", "s"],
                    AliasTaken("s", "y"), ONE_LEFT)
  {
    var names := ["x", "x", "x", "x", "q", "s"];
    TwoAreIndexed();
    FirstFiveClaimed(names);
    assert RefusedAt(WITHOUT_FIRST, "x", {"q", "s"}, names, 5);
    assert AliasTaken("s", "y") == ReasonFor(WITHOUT_FIRST, names[5]);
  }

  lemma {:induction false} OwnNameOnly(start: Index, id: ModelId, names: seq<Alias>)
    requires id !in start && names != [] && forall i :: 0 <= i < |names| ==> names[i] == id
    ensures ClaimedUpTo(start, id, names) == start[id := Some(id)]
  {
    var init := names[..|names| - 1];
    assert names[|names| - 1] == id;
    forall i | 0 <= i < |init| ensures init[i] == id { assert init[i] == names[i]; }
    if init != [] { OwnNameOnly(start, id, init); }
  }
}
