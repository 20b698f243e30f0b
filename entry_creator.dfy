/** The loader's pure helpers (packages/loader/src/entry-creator.ts): Contentful link
    objects, the substitution of local reference markers by links, and the order in which
    entries are created so that what an entry links to exists first. Field values are
    `Json`; the deep copy the source takes with `JSON.parse(JSON.stringify(fields))` is
    implicit, since Dafny values are never shared or mutated. */
module EntryCreator {
  import opened Outcomes
  import opened Json
  import opened Seqs

  // ---------------------------------------------------------------- links

  /** `sys.id` of a link, when it is a string. */
  function LinkId(v: Json): Option<string> {
    match Path(Some(v), ["sys", "id"])
    case Some(JString(s)) => Some(s)
    case _ => None
  }

  /** `sys.linkType` of a link. */
  function LinkType(v: Json): Option<Json> {
    Path(Some(v), ["sys", "linkType"])
  }

  /** `sys.type === 'Link'`. */
  predicate IsLink(v: Json) {
    Path(Some(v), ["sys", "type"]) == Some(JString("Link"))
  }

  /** `makeLink(id, linkType = 'Entry')`: an object holding only `sys`, which holds only
      `type`, `linkType` and `id`. */
  function MakeLink(id: string, linkType: Json := JString("Entry")): (r: Json)
    ensures IsLink(r) && LinkId(r) == Some(id) && LinkType(r) == Some(linkType)
    ensures r.JObject? && r.fields.Keys == {"sys"}
    ensures r.fields["sys"].JObject? && r.fields["sys"].fields.Keys == {"type", "linkType", "id"}
  {
    JObject(map["sys" := JObject(map["type" := JString("Link"), "linkType" := linkType, "id" := JString(id)])])
  }

  /** The link's fields determine it: a link is rebuilt from what the readers give back. */
  lemma MakeLinkInjective(id1: string, t1: Json, id2: string, t2: Json)
    requires MakeLink(id1, t1) == MakeLink(id2, t2)
    ensures id1 == id2 && t1 == t2
  {
    assert LinkId(MakeLink(id1, t1)) == Some(id1);
    assert LinkType(MakeLink(id1, t1)) == Some(t1);
  }

  /** `localize(value)`: the value under the one locale `en-US`. */
  function Localize(v: Json): (r: Json)
    ensures r.JObject? && r.fields.Keys == {"en-US"}
    ensures Get(Some(r), "en-US") == Some(v)
  {
    JObject(map["en-US" := v])
  }

  // ---------------------------------------------------------------- resolveReferences

  /** `value && typeof value === 'object' && '_localRef' in value`: an object that carries
      a local reference marker (arrays carry no named keys). */
  predicate IsRef(v: Json) {
    v.JObject? && "_localRef" in v.fields
  }

  /** `idMap[localId]` when it is truthy: the marker is used as a property key, so it is
      converted with `String(...)`, and an empty id counts as missing. */
  function RefTarget(v: Json, idMap: map<string, string>): Option<string>
    requires IsRef(v)
  {
    var key := Show(v.fields["_localRef"]);
    if key in idMap && idMap[key] != "" then Some(idMap[key]) else None
  }

  /** `value._linkType || 'Entry'`. */
  function RefLinkType(v: Json): (t: Json)
    requires IsRef(v)
    ensures Truthy(Some(t))
  {
    if Truthy(Get(Some(v), "_linkType")) then v.fields["_linkType"] else JString("Entry")
  }

  /** One value, or one array element: a marker whose id is mapped becomes a link, and
      everything else stays as it is. */
  function ResolveItem(v: Json, idMap: map<string, string>): (r: Json)
    ensures IsRef(v) && RefTarget(v, idMap).Some? ==>
      IsLink(r) && LinkId(r) == RefTarget(v, idMap) && LinkType(r) == Some(RefLinkType(v))
    ensures !(IsRef(v) && RefTarget(v, idMap).Some?) ==> r == v
  {
    if IsRef(v) then
      match RefTarget(v, idMap)
      case Some(id) => MakeLink(id, RefLinkType(v))
      case None => v
    else v
  }

  /** `value.map(item => ...)`. */
  function ResolveItems(items: seq<Json>, idMap: map<string, string>): (r: seq<Json>)
    ensures |r| == |items|
    ensures forall i :: 0 <= i < |items| ==> r[i] == ResolveItem(items[i], idMap)
  {
    seq(|items|, i requires 0 <= i < |items| => ResolveItem(items[i], idMap))
  }

  /** The new value of one locale: a marker is resolved, an array is resolved element by
      element, and nothing else changes. */
  function ResolveValue(v: Json, idMap: map<string, string>): Json {
    if IsRef(v) then ResolveItem(v, idMap)
    else if v.JArray? then JArray(ResolveItems(v.items, idMap))
    else v
  }

  function ResolvedLocales(locales: map<string, Json>, idMap: map<string, string>): (r: map<string, Json>)
    ensures r.Keys == locales.Keys
  {
    map l | l in locales :: ResolveValue(locales[l], idMap)
  }

  /** What `resolveReferences(fields, idMap)` returns: the same field and locale keys, each
      value resolved. */
  function ResolvedFields(fields: map<string, map<string, Json>>, idMap: map<string, string>)
    : (r: map<string, map<string, Json>>)
    ensures r.Keys == fields.Keys
    ensures forall f :: f in fields ==> r[f].Keys == fields[f].Keys
  {
    map f | f in fields :: ResolvedLocales(fields[f], idMap)
  }

  /** `resolveReferences(fields, idMap)`: a copy of `fields` whose entries are rewritten one
      field and one locale at a time. */
  method ResolveReferences(fields: map<string, map<string, Json>>, idMap: map<string, string>)
    returns (resolved: map<string, map<string, Json>>)
    ensures resolved == ResolvedFields(fields, idMap)
  {
    resolved := fields;
    var todo := fields.Keys;
    while todo != {}
      invariant todo <= fields.Keys && resolved.Keys == fields.Keys
      invariant forall f :: f in fields && f !in todo ==> resolved[f] == ResolvedLocales(fields[f], idMap)
      invariant forall f :: f in todo ==> resolved[f] == fields[f]
      decreases todo
    {
      var fieldId :| fieldId in todo;
      var out := ResolveLocales(resolved[fieldId], idMap);
      resolved := resolved[fieldId := out];
      todo := todo - {fieldId};
    }
  }

  /** The inner loop of `resolveReferences`, over the locales of one field. */
  method ResolveLocales(localeValues: map<string, Json>, idMap: map<string, string>)
    returns (out: map<string, Json>)
    ensures out == ResolvedLocales(localeValues, idMap)
  {
    out := localeValues;
    var locales := localeValues.Keys;
    while locales != {}
      invariant LocalesResolved(out, localeValues, locales, idMap)
      decreases locales
    {
      var locale :| locale in locales;
      var value := localeValues[locale];
      ghost var before := out;
      LocaleResolvedStep(out, localeValues, locales, locale, idMap);
      ResolveValueCases(value, idMap);
      if IsRef(value) {
        var realId := RefTarget(value, idMap);
        if realId.Some? {
          out := out[locale := MakeLink(realId.value, RefLinkType(value))];
        }
      }
      if value.JArray? {
        out := out[locale := JArray(ResolveItems(value.items, idMap))];
      }
      assert out == before[locale := ResolveValue(value, idMap)];
      locales := locales - {locale};
    }
  }

  /** The new value of a locale, case by case as the loop body decides it. */
  lemma ResolveValueCases(v: Json, idMap: map<string, string>)
    ensures IsRef(v) && RefTarget(v, idMap).Some? ==>
      ResolveValue(v, idMap) == MakeLink(RefTarget(v, idMap).value, RefLinkType(v))
    ensures v.JArray? ==> ResolveValue(v, idMap) == JArray(ResolveItems(v.items, idMap))
    ensures !(IsRef(v) && RefTarget(v, idMap).Some?) && !v.JArray? ==> ResolveValue(v, idMap) == v
  {
  }

  /** The state of the locale loop: the locales no longer in `locales` hold their resolved
      values, the others their original ones. */
  ghost predicate LocalesResolved(out: map<string, Json>, localeValues: map<string, Json>, locales: set<string>,
                                  idMap: map<string, string>) {
    && locales <= localeValues.Keys && out.Keys == localeValues.Keys
    && (forall l :: l in localeValues && l !in locales ==> out[l] == ResolveValue(localeValues[l], idMap))
    && (forall l :: l in locales ==> out[l] == localeValues[l])
  }

  /** Resolving one more locale keeps the loop state. */
  lemma LocaleResolvedStep(out: map<string, Json>, localeValues: map<string, Json>, locales: set<string>,
                           locale: string, idMap: map<string, string>)
    requires LocalesResolved(out, localeValues, locales, idMap) && locale in locales
    ensures LocalesResolved(out[locale := ResolveValue(localeValues[locale], idMap)], localeValues,
                            locales - {locale}, idMap)
  {
  }

  /** A value, or an array element, that would still be rewritten. */
  predicate Resolvable(v: Json, idMap: map<string, string>) {
    IsRef(v) && RefTarget(v, idMap).Some?
  }

  /** After resolution no mapped marker is left, neither as a value nor inside an array. */
  lemma NothingLeftToResolve(v: Json, idMap: map<string, string>)
    ensures !Resolvable(ResolveValue(v, idMap), idMap)
    ensures ResolveValue(v, idMap).JArray? ==>
      forall i :: 0 <= i < |ResolveValue(v, idMap).items| ==> !Resolvable(ResolveValue(v, idMap).items[i], idMap)
  {
    var r := ResolveValue(v, idMap);
    if v.JArray? {
      forall i | 0 <= i < |r.items| ensures !Resolvable(r.items[i], idMap) {
        ItemSettled(v.items[i], idMap);
      }
    } else if Resolvable(v, idMap) {
      ItemSettled(v, idMap);
    }
  }

  /** A resolved element is no marker with a mapped id, and resolving it again keeps it. */
  lemma ItemSettled(v: Json, idMap: map<string, string>)
    ensures !Resolvable(ResolveItem(v, idMap), idMap)
    ensures ResolveItem(ResolveItem(v, idMap), idMap) == ResolveItem(v, idMap)
  {
    if Resolvable(v, idMap) {
      var r := ResolveItem(v, idMap);
      assert r.fields.Keys == {"sys"};
      assert "_localRef" !in r.fields;
    }
  }

  /** Resolving twice is resolving once. */
  lemma ResolveValueIdempotent(v: Json, idMap: map<string, string>)
    ensures ResolveValue(ResolveValue(v, idMap), idMap) == ResolveValue(v, idMap)
  {
    var r := ResolveValue(v, idMap);
    if IsRef(v) {
      ItemSettled(v, idMap);
      if Resolvable(v, idMap) {
        assert !r.JArray?;
      }
    } else if v.JArray? {
      var again := ResolveItems(r.items, idMap);
      forall i | 0 <= i < |again| ensures again[i] == r.items[i] {
        ItemSettled(v.items[i], idMap);
      }
      assert again == r.items;
    }
  }

  /** `resolveReferences` applied to its own result changes nothing. */
  lemma ResolvedFieldsIdempotent(fields: map<string, map<string, Json>>, idMap: map<string, string>)
    ensures ResolvedFields(ResolvedFields(fields, idMap), idMap) == ResolvedFields(fields, idMap)
  {
    var r := ResolvedFields(fields, idMap);
    forall f | f in r ensures ResolvedLocales(r[f], idMap) == r[f] {
      forall l | l in r[f] ensures ResolveValue(r[f][l], idMap) == r[f][l] {
        ResolveValueIdempotent(fields[f][l], idMap);
      }
    }
  }

  /** A value that is neither a marker nor an array, and a marker whose id is not mapped,
      are left as they were; an array keeps its length. */
  lemma ResolveValueKeeps(v: Json, idMap: map<string, string>)
    ensures !IsRef(v) && !v.JArray? ==> ResolveValue(v, idMap) == v
    ensures IsRef(v) && RefTarget(v, idMap).None? ==> ResolveValue(v, idMap) == v
    ensures v.JArray? ==> ResolveValue(v, idMap).JArray? && |ResolveValue(v, idMap).items| == |v.items|
  {
  }

  // ---------------------------------------------------------------- sortByDependencies

  /** An entry to create: `localId` names it in the harvested data, and `dependsOn` lists
      the local ids it links to (an absent list is empty). */
  datatype EntryPayload = EntryPayload(
    localId: string, contentTypeId: string, fields: map<string, map<string, Json>>,
    metadata: Option<Json>, dependsOn: seq<string>)

  /** `new Map(entries.map(e => [e.localId, e]))`: for a repeated id the last entry wins. */
  function ById(entries: seq<EntryPayload>): (m: map<string, EntryPayload>)
    ensures forall k :: k in m ==> m[k].localId == k && m[k] in entries
    ensures forall e :: e in entries ==> e.localId in m
  {
    if entries == [] then map[]
    else
      var last := entries[|entries| - 1];
      ById(entries[..|entries| - 1])[last.localId := last]
  }

  /** The entry an id maps to is the last one that carries the id. */
  lemma {:induction false} ByIdLastWins(entries: seq<EntryPayload>, i: nat)
    requires i < |entries|
    requires forall j :: i < j < |entries| ==> entries[j].localId != entries[i].localId
    ensures ById(entries)[entries[i].localId] == entries[i]
  {
    if i < |entries| - 1 {
      var init := entries[..|entries| - 1];
      assert init[i] == entries[i];
      ByIdLastWins(init, i);
    }
  }

  /** The ids of `s`. */
  function Ids(s: seq<EntryPayload>): set<string> {
    if s == [] then {} else Ids(s[..|s| - 1]) + {s[|s| - 1].localId}
  }

  lemma {:induction false} IdsMembers(s: seq<EntryPayload>)
    ensures forall i :: 0 <= i < |s| ==> s[i].localId in Ids(s)
    ensures forall k :: k in Ids(s) ==> exists i :: 0 <= i < |s| && s[i].localId == k
  {
    if s != [] {
      var init := s[..|s| - 1];
      IdsMembers(init);
      assert forall i :: 0 <= i < |init| ==> s[i] == init[i];
    }
  }

  /** No id occurs twice. */
  predicate IdsUnique(s: seq<EntryPayload>) {
    forall i, j :: 0 <= i < j < |s| ==> s[i].localId != s[j].localId
  }

  /** Every dependency present in `byId` comes before the entry that depends on it. */
  ghost predicate DepsFirst(s: seq<EntryPayload>, byId: map<string, EntryPayload>) {
    forall i, d :: 0 <= i < |s| && d in s[i].dependsOn && d in byId ==> d in Ids(s[..i])
  }

  /** A rank that every dependency present in `byId` lies below: the dependency graph of
      `pool` has no cycle. */
  ghost predicate RankOk(pool: set<EntryPayload>, byId: map<string, EntryPayload>, rank: map<string, int>) {
    && (forall x :: x in pool ==> x.localId in rank)
    && (forall x, d :: x in pool && d in x.dependsOn && d in byId ==> d in rank && rank[d] < rank[x.localId])
  }

  function Pool(entries: seq<EntryPayload>): set<EntryPayload> {
    set e | e in entries
  }

  /** Some rank orders every dependency of `entries` below its dependent. */
  ghost predicate Acyclic(entries: seq<EntryPayload>) {
    exists rank :: RankOk(Pool(entries), ById(entries), rank)
  }

  lemma {:induction false} IdsPrefix(s: seq<EntryPayload>, t: seq<EntryPayload>)
    requires s <= t
    ensures Ids(s) <= Ids(t)
    decreases |t|
  {
    if |s| < |t| {
      assert s <= t[..|t| - 1];
      IdsPrefix(s, t[..|t| - 1]);
    } else {
      assert s == t;
    }
  }

  lemma IdsPush(s: seq<EntryPayload>, e: EntryPayload)
    ensures Ids(s + [e]) == Ids(s) + {e.localId}
  {
    assert (s + [e])[..|s|] == s;
  }

  lemma DepsFirstPush(s: seq<EntryPayload>, e: EntryPayload, byId: map<string, EntryPayload>)
    requires DepsFirst(s, byId)
    requires forall d :: d in e.dependsOn && d in byId ==> d in Ids(s)
    ensures DepsFirst(s + [e], byId)
  {
    var t := s + [e];
    forall i, d | 0 <= i < |t| && d in t[i].dependsOn && d in byId ensures d in Ids(t[..i]) {
      if i < |s| {
        assert t[..i] == s[..i];
      } else {
        assert t[..i] == s;
      }
    }
  }

  lemma CardLess(a: set<string>, b: set<string>, k: string)
    requires a <= b && k in b && k !in a
    ensures |a| < |b|
  {
    SubsetCard(a, b - {k});
  }

  lemma {:induction false} SubsetCard(a: set<string>, b: set<string>)
    requires a <= b
    ensures |a| <= |b|
    decreases |b|
  {
    if a != {} {
      var x :| x in a;
      SubsetCard(a - {x}, b - {x});
    }
  }

  /** The map of ids the visit looks dependencies up in: each id names an entry of the
      input that carries it. */
  ghost predicate ByIdOk(byId: map<string, EntryPayload>, pool: set<EntryPayload>) {
    forall k :: k in byId ==> byId[k].localId == k && byId[k] in pool
  }

  /** The state between steps of the walk: `visited` holds the ids placed in `sorted`, each
      once, and the ids of the visits still in progress, `stack`; all placed entries come
      from the input. */
  ghost predicate Placed(visited: set<string>, sorted: seq<EntryPayload>, stack: set<string>, pool: set<EntryPayload>) {
    && visited == Ids(sorted) + stack && Ids(sorted) !! stack
    && IdsUnique(sorted) && forall x :: x in sorted ==> x in pool
  }

  /** Every visit in progress ranks above `id`. */
  ghost predicate Above(stack: set<string>, rank: map<string, int>, id: string) {
    id in rank && forall s :: s in stack ==> s in rank && rank[s] > rank[id]
  }

  /** `visit(entry)`. Under an acyclic ordering `rank`, every visit in progress ranks above
      `entry`, so the entries it depends on are placed before it. */
  method Visit(byId: map<string, EntryPayload>, entry: EntryPayload, visited: set<string>,
               sorted: seq<EntryPayload>, ghost stack: set<string>, ghost pool: set<EntryPayload>,
               ghost rank: map<string, int>, ghost acyclic: bool)
    returns (visited': set<string>, sorted': seq<EntryPayload>)
    requires ByIdOk(byId, pool) && entry in pool && entry.localId in byId
    requires Placed(visited, sorted, stack, pool)
    requires acyclic ==> RankOk(pool, byId, rank) && DepsFirst(sorted, byId) && Above(stack, rank, entry.localId)
    ensures visited <= visited' && entry.localId in visited'
    ensures Placed(visited', sorted', stack, pool) && sorted <= sorted'
    ensures acyclic ==> DepsFirst(sorted', byId) && entry.localId in Ids(sorted')
    decreases |byId.Keys - visited|, 0
  {
    if entry.localId in visited {
      return visited, sorted;
    }
    visited' := visited + {entry.localId};
    ghost var inner := stack + {entry.localId};
    PlacedEnter(visited, sorted, stack, entry.localId, pool);
    if acyclic {
      StackAbove(stack, entry, pool, byId, rank);
    }
    CardLess(byId.Keys - visited', byId.Keys - visited, entry.localId);
    visited', sorted' := VisitDependencies(byId, entry.dependsOn, visited', sorted, inner, pool, rank, acyclic);
    PlacedPush(visited', sorted', stack, entry, pool);
    if acyclic {
      DepsFirstPush(sorted', entry, byId);
    }
    PrefixTrans(sorted, sorted', sorted' + [entry]);
    sorted' := sorted' + [entry];
  }

  /** The loop of `visit` over `entry.dependsOn || []`: each dependency found in `byId` is
      visited in turn; under `rank`, each ranks below every visit in progress. */
  method VisitDependencies(byId: map<string, EntryPayload>, deps: seq<string>, visited: set<string>,
                           sorted: seq<EntryPayload>, ghost stack: set<string>, ghost pool: set<EntryPayload>,
                           ghost rank: map<string, int>, ghost acyclic: bool)
    returns (visited': set<string>, sorted': seq<EntryPayload>)
    requires ByIdOk(byId, pool) && Placed(visited, sorted, stack, pool)
    requires acyclic ==> RankOk(pool, byId, rank) && DepsFirst(sorted, byId)
    requires acyclic ==> forall d :: d in deps && d in byId ==> Above(stack, rank, d)
    ensures visited <= visited' && Placed(visited', sorted', stack, pool) && sorted <= sorted'
    ensures acyclic ==> DepsFirst(sorted', byId) && forall d :: d in deps && d in byId ==> d in Ids(sorted')
    decreases |byId.Keys - visited|, 1
  {
    visited', sorted' := visited, sorted;
    for i := 0 to |deps|
      invariant visited <= visited' && Placed(visited', sorted', stack, pool) && sorted <= sorted'
      invariant acyclic ==> DepsFirst(sorted', byId)
      invariant acyclic ==> forall d :: d in deps[..i] && d in byId ==> d in Ids(sorted')
    {
      var depId := deps[i];
      assert deps[..i + 1] == deps[..i] + [depId];
      var dep := if depId in byId then Some(byId[depId]) else None;
      if dep.Some? {
        assert depId in deps && dep.value.localId == depId;
        SubsetCard(byId.Keys - visited', byId.Keys - visited);
        ghost var before := sorted';
        visited', sorted' := Visit(byId, dep.value, visited', sorted', stack, pool, rank, acyclic);
        IdsPrefix(before, sorted');
        PrefixTrans(sorted, before, sorted');
      }
    }
    assert deps[..|deps|] == deps;
  }

  lemma PrefixTrans(a: seq<EntryPayload>, b: seq<EntryPayload>, c: seq<EntryPayload>)
    requires a <= b && b <= c
    ensures a <= c
  {
  }

  /** A dependency of `entry` ranks below every visit in progress, `entry` included. */
  lemma StackAbove(stack: set<string>, entry: EntryPayload, pool: set<EntryPayload>,
                   byId: map<string, EntryPayload>, rank: map<string, int>)
    requires RankOk(pool, byId, rank) && entry in pool && Above(stack, rank, entry.localId)
    ensures forall d :: d in entry.dependsOn && d in byId ==> Above(stack + {entry.localId}, rank, d)
  {
  }

  /** Starting a visit of an id not yet visited marks it as in progress. */
  lemma PlacedEnter(visited: set<string>, sorted: seq<EntryPayload>, stack: set<string>, id: string,
                    pool: set<EntryPayload>)
    requires Placed(visited, sorted, stack, pool) && id !in visited
    ensures Placed(visited + {id}, sorted, stack + {id}, pool) && id !in stack
  {
  }

  /** Finishing `entry` moves its id from the visits in progress to the placed entries. */
  lemma PlacedPush(visited: set<string>, sorted: seq<EntryPayload>, stack: set<string>,
                   entry: EntryPayload, pool: set<EntryPayload>)
    requires Placed(visited, sorted, stack + {entry.localId}, pool) && entry.localId !in stack
    requires entry in pool
    ensures Placed(visited, sorted + [entry], stack, pool)
  {
    IdsPush(sorted, entry);
    IdsMembers(sorted);
    var t := sorted + [entry];
    forall i, j | 0 <= i < j < |t| ensures t[i].localId != t[j].localId {
      if j == |sorted| {
        assert t[i] == sorted[i];
      }
    }
  }

  /** `sortByDependencies(entries)`: every entry is visited in input order. */
  method SortByDependencies(entries: seq<EntryPayload>) returns (sorted: seq<EntryPayload>)
    ensures IdsUnique(sorted)
    ensures Ids(sorted) == Ids(entries)
    ensures forall x :: x in sorted ==> x in entries
    ensures IdsUnique(entries) ==> multiset(sorted) == multiset(entries)
    ensures Acyclic(entries) ==> DepsFirst(sorted, ById(entries))
  {
    var byId := ById(entries);
    var visited: set<string> := {};
    sorted := [];
    ghost var pool := Pool(entries);
    ghost var acyclic := Acyclic(entries);
    ghost var rank: map<string, int> := map[];
    if acyclic {
      rank :| RankOk(pool, byId, rank);
    }
    PoolById(entries);
    for i := 0 to |entries|
      invariant Placed(visited, sorted, {}, pool)
      invariant forall j :: 0 <= j < i ==> entries[j].localId in visited
      invariant acyclic ==> DepsFirst(sorted, byId)
    {
      visited, sorted := Visit(byId, entries[i], visited, sorted, {}, pool, rank, acyclic);
    }
    IdsOfEntries(entries, sorted);
    if IdsUnique(entries) {
      UniqueIdsPermutation(entries, sorted);
    }
  }

  /** The id map and the pool the walk starts from: every input entry is in both. */
  lemma PoolById(entries: seq<EntryPayload>)
    ensures ByIdOk(ById(entries), Pool(entries))
    ensures forall i :: 0 <= i < |entries| ==> entries[i] in Pool(entries) && entries[i].localId in ById(entries)
  {
  }

  lemma IdsOfEntries(entries: seq<EntryPayload>, sorted: seq<EntryPayload>)
    requires forall x :: x in sorted ==> x in entries
    requires forall j :: 0 <= j < |entries| ==> entries[j].localId in Ids(sorted)
    ensures Ids(sorted) == Ids(entries)
  {
    IdsMembers(entries);
    IdsMembers(sorted);
    forall k | k in Ids(sorted) ensures k in Ids(entries) {
      var i :| 0 <= i < |sorted| && sorted[i].localId == k;
      assert sorted[i] in entries;
      var j :| 0 <= j < |entries| && entries[j] == sorted[i];
      assert entries[j].localId == k;
    }
    forall k | k in Ids(entries) ensures k in Ids(sorted) {
      var j :| 0 <= j < |entries| && entries[j].localId == k;
    }
  }

  /** Entries with distinct ids that hold every id of `entries`, all taken from `entries`,
      are `entries` in another order. */
  lemma UniqueIdsPermutation(entries: seq<EntryPayload>, sorted: seq<EntryPayload>)
    requires IdsUnique(entries) && IdsUnique(sorted)
    requires forall x :: x in sorted ==> x in entries
    requires Ids(sorted) == Ids(entries)
    ensures multiset(sorted) == multiset(entries)
  {
    IdsMembers(entries);
    IdsMembers(sorted);
    forall j | 0 <= j < |entries| ensures entries[j] in sorted {
      var e := entries[j];
      assert e.localId in Ids(sorted);
      var i :| 0 <= i < |sorted| && sorted[i].localId == e.localId;
      assert sorted[i] in entries;
      var k :| 0 <= k < |entries| && entries[k] == sorted[i];
      assert k == j;
    }
    assert NoDups(sorted) && NoDups(entries);
    forall i | 0 <= i < |sorted| ensures sorted[i] in entries {
      assert sorted[i] in sorted;
    }
    NoDupsMultiset(sorted, entries);
  }
}
