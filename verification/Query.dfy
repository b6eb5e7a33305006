/** The query engine: filters, mappings and the layout of the result, over one partition. */
module Query {
  import opened Common
  import opened Entity
  import A = Address

  datatype Filter =
    | AllComponents(comps: seq<CompName>)
    | Component(comp: CompName)
    | Name(names: seq<EntityName>)
    | VarRange(addr: A.LocalAddress, low: Var, high: Var)
    | Node
    | UnsupportedFilter

  datatype Mapping =
    | All
    | SelectAddrs(addrs: seq<StorageIndex>)
    | Components(comps: seq<CompName>)
    | OneComponent(comp: CompName)
    | VarNamed(name: VarName)
    | UnsupportedMapping

  datatype Description = NoDescription | NativeDescribed | Addressed | ByEntity | ByEntityMany | UnsupportedDescription

  datatype Layout = Vars | Strings | Typed

  datatype Archive = Only | Ignore | Include | IncludeAndRestoreSelected

  datatype Query = Query(
    description: Description, layout: Layout, filters: seq<Filter>, mappings: seq<Mapping>,
    archive: Archive, limit: Option<nat>)

  datatype QueryError = ArchiveDisabled | InvalidVarType | Unimplemented

  type Triple = (EntityName, CompName, VarName)
  type Data = map<Triple, Var>

  datatype Product =
    | NativeAddressedVar(native: Data)
    | AddressedVar(addressed: map<A.Address, Var>)
    | NameAddressedVar(named: map<EntityName, Var>)
    | NameAddressedVars(namedMany: map<EntityName, seq<Var>>)
    | VarList(vars: seq<Var>)
    | StringList(strings: seq<string>)
    | AddressedTyped(floats: map<A.Address, real>, bools: map<A.Address, bool>, ints: map<A.Address, int>,
                     typedStrings: map<A.Address, string>)
    | Empty

  // ----- what a filter says about one entity -----

  /** The value a range filter looks at, if the entity has it. */
  function Ranged(f: Filter, e: Entity): Option<Var>
    requires f.VarRange?
  {
    var index := (f.addr.comp, f.addr.varName);
    if index in e.storage then Some(e.storage[index]) else None
  }

  /** A range filter on an address of a type it does not handle, or on a value of another type. */
  function RangeError(f: Filter, v: Var): Option<QueryError>
    requires f.VarRange?
  {
    match f.addr.varType
    case String => None
    case Int => if v.varType.Int? then None else Some(InvalidVarType)
    case Float => if v.varType.Float? then None else Some(InvalidVarType)
    case _ => Some(Unimplemented)
  }

  /** Bounds are strict; a string counts by its length in bytes. */
  predicate InRange(f: Filter, v: Var)
    requires f.VarRange?
  {
    match f.addr.varType
    case String => f.low.intValue < (|v.text|) && |v.text| < f.high.intValue
    case Int => f.low.intValue < v.intValue < f.high.intValue
    case Float => f.low.floatValue < v.floatValue < f.high.floatValue
    case _ => false
  }

  lemma RangedMeans(f: Filter, e: Entity, v: Var)
    requires f.VarRange?
    ensures Ranged(f, e) == Some(v)
       <==> exists k :: k in e.storage && k == (f.addr.comp, f.addr.varName) && e.storage[k] == v
  {
  }

  /** A range leaves out its bounds. It is told by the type in the address which number to look at; an
      integer or a float must be of that type, while of any value the text can be measured. */
  lemma RangeMeans(f: Filter, v: Var)
    requires f.VarRange?
    ensures f.addr.varType.String? ==>
              RangeError(f, v).None? && (InRange(f, v) <==> f.low.intValue + 1 <= |v.text| <= f.high.intValue - 1)
    ensures f.addr.varType.Int? ==>
              && (RangeError(f, v).None? <==> v.varType == A.Int)
              && (InRange(f, v) <==> f.low.intValue + 1 <= v.intValue <= f.high.intValue - 1)
    ensures f.addr.varType.Float? ==>
              && (RangeError(f, v).None? <==> v.varType == A.Float)
              && (InRange(f, v) <==> v.floatValue - f.low.floatValue > 0.0 && f.high.floatValue - v.floatValue > 0.0)
    ensures !f.addr.varType.String? && !f.addr.varType.Int? && !f.addr.varType.Float? ==>
              RangeError(f, v) == Some(Unimplemented) && !InRange(f, v)
  {
  }

  predicate Passes(f: Filter, n: EntityName, e: Entity) {
    match f
    case AllComponents(comps) => forall c :: c in comps ==> c in e.components
    case Component(c) => c in e.components
    case Name(names) => n in names
    case VarRange(_, _, _) => var v := Ranged(f, e); v.Some? && InRange(f, v.value)
    case Node => true
    case UnsupportedFilter => false
  }

  predicate Errs(f: Filter, e: Entity) {
    f.VarRange? && Ranged(f, e).Some? && RangeError(f, Ranged(f, e).value).Some?
  }

  /** Still selected after all the filters: a `Component` filter selects anew, any other narrows. */
  predicate Alive(fs: seq<Filter>, n: EntityName, e: Entity)
    decreases |fs|
  {
    fs == [] ||
    var f, front := fs[|fs| - 1], fs[..|fs| - 1];
    Passes(f, n, e) && (f.Component? || Alive(front, n, e))
  }

  /** Some filter could not be evaluated on the entity while it was selected. */
  predicate Failing(fs: seq<Filter>, n: EntityName, e: Entity)
    decreases |fs|
  {
    fs != [] &&
    var f, front := fs[|fs| - 1], fs[..|fs| - 1];
    Failing(front, n, e) || (Errs(f, e) && Alive(front, n, e))
  }

  /** Index of the first filter that matters for the selection: the last `Component`, or 0. */
  function LastSelect(fs: seq<Filter>): (k: nat)
    ensures k <= |fs|
    decreases |fs|
  {
    if fs == [] then 0
    else if fs[|fs| - 1].Component? then |fs| - 1
    else LastSelect(fs[..|fs| - 1])
  }

  /** Selected means passing every filter from the last `Component` filter onward. */
  lemma {:induction false} AliveMeaning(fs: seq<Filter>, n: EntityName, e: Entity)
    ensures Alive(fs, n, e) <==> forall i :: LastSelect(fs) <= i < |fs| ==> Passes(fs[i], n, e)
    decreases |fs|
  {
    if fs != [] && !fs[|fs| - 1].Component? {
      var front := fs[..|fs| - 1];
      AliveMeaning(front, n, e);
      assert forall i :: 0 <= i < |front| ==> front[i] == fs[i];
    }
  }

  ghost predicate Supported(fs: seq<Filter>) {
    forall f :: f in fs ==> !f.UnsupportedFilter?
  }

  /** The archive is consulted by `Name` filters only; every other filter drops its selection. */
  predicate ArchivedChosen(q: Query, n: EntityName) {
    q.archive.Include? && forall f :: f in q.filters ==> f.Name? && n in f.names
  }

  // ----- the filter loop -----

  /** The entities that pass one more filter. */
  function Passing(f: Filter, selected: set<EntityName>, entities: Entities): set<EntityName> {
    set n | n in entities && Passes(f, n, entities[n]) && (f.Component? || n in selected)
  }

  /** The archived ones. */
  function PassingArchived(f: Filter, selected: set<EntityName>): set<EntityName> {
    set n | n in selected && f.Name? && n in f.names
  }

  function AtMost(limit: Option<nat>, count: nat): nat {
    if limit.Some? && limit.value < count then limit.value else count
  }

  /** What the filters may leave selected under the limit: after each of them as many of those that pass
      as the limit allows, whichever they are. */
  ghost predicate Choosable(fs: seq<Filter>, entities: Entities, limit: Option<nat>, s: set<EntityName>)
    decreases |fs|
  {
    if fs == [] then s == entities.Keys
    else
      var f, front := fs[|fs| - 1], fs[..|fs| - 1];
      exists t: set<EntityName> ::
        && Choosable(front, entities, limit, t)
        && s <= Passing(f, t, entities) && |s| == AtMost(limit, |Passing(f, t, entities)|)
  }

  ghost predicate ChoosableArchived(fs: seq<Filter>, archived: set<EntityName>, limit: Option<nat>, s: set<EntityName>)
    decreases |fs|
  {
    if fs == [] then s == archived
    else
      var f, front := fs[|fs| - 1], fs[..|fs| - 1];
      exists t: set<EntityName> ::
        && ChoosableArchived(front, archived, limit, t)
        && s <= PassingArchived(f, t) && |s| == AtMost(limit, |PassingArchived(f, t)|)
  }

  /** No `Name` filter repeats a name. */
  ghost predicate NamesOnce(fs: seq<Filter>) {
    forall f :: f in fs && f.Name? ==> NoDup(f.names)
  }

  /** A part of a set with as many elements is the set. */
  lemma PartOfSameSize<T>(s: set<T>, t: set<T>)
    requires s <= t
    ensures |s| <= |t| && (|s| == |t| ==> s == t)
  {
    var rest := t - s;
    assert t == s + rest && |t| == |s| + |rest|;
  }

  /** A limit that all entities fit into changes nothing: what may be chosen is everything alive. */
  lemma {:induction false} ChoosableIfAmple(fs: seq<Filter>, entities: Entities, limit: Option<nat>, s: set<EntityName>)
    requires Choosable(fs, entities, limit, s) && (limit.Some? ==> |entities| <= limit.value)
    ensures s == set n | n in entities && Alive(fs, n, entities[n])
    decreases |fs|
  {
    hide Passes;
    if fs != [] {
      var f, front := fs[|fs| - 1], fs[..|fs| - 1];
      var t :| Choosable(front, entities, limit, t)
            && s <= Passing(f, t, entities) && |s| == AtMost(limit, |Passing(f, t, entities)|);
      ChoosableIfAmple(front, entities, limit, t);
      PartOfSameSize(Passing(f, t, entities), entities.Keys);
      PartOfSameSize(s, Passing(f, t, entities));
      assert s == Passing(f, t, entities);
    }
  }

  lemma {:induction false} ArchivedIfAmple(q: Query, fs: seq<Filter>, archived: set<EntityName>, limit: Option<nat>,
                                           s: set<EntityName>)
    requires ChoosableArchived(fs, archived, limit, s) && (limit.Some? ==> |archived| <= limit.value)
    requires q.archive.Include?
    ensures s == set n | n in archived && ArchivedChosen(q.(filters := fs), n)
    decreases |fs|
  {
    if fs != [] {
      var f, front := fs[|fs| - 1], fs[..|fs| - 1];
      var t :| ChoosableArchived(front, archived, limit, t)
            && s <= PassingArchived(f, t) && |s| == AtMost(limit, |PassingArchived(f, t)|);
      ArchivedIfAmple(q, front, archived, limit, t);
      PartOfSameSize(PassingArchived(f, t), archived);
      PartOfSameSize(s, PassingArchived(f, t));
      assert s == PassingArchived(f, t);
      assert fs == front + [f];
      ArchivedSnoc(q, front, f);
    }
  }

  /** With a single filter the number selected is the smaller of the limit and of how many pass. */
  lemma OneFilterFillsLimit(f: Filter, entities: Entities, limit: Option<nat>, s: set<EntityName>)
    requires Choosable([f], entities, limit, s)
    ensures |s| == AtMost(limit, |set n | n in entities && Passes(f, n, entities[n])|)
  {
    assert [f][..0] == [];
    assert Passing(f, entities.Keys, entities) == set n | n in entities && Passes(f, n, entities[n]);
  }

  ghost predicate SomeFails(fs: seq<Filter>, entities: Entities) {
    exists n :: n in entities && Failing(fs, n, entities[n])
  }

  method Truncate<T>(s: seq<T>, limit: Option<nat>) returns (t: seq<T>)
    ensures t <= s && |t| == AtMost(limit, |s|)
    ensures NoDup(s) ==> NoDup(t)
  {
    t := if limit.Some? && limit.value < |s| then s[..limit.value] else s;
  }

  /** The next element of a list without repetitions is none of the earlier ones. */
  lemma NoDupSnoc<T>(s: seq<T>, i: nat, kept: seq<T>)
    requires i < |s| && forall x :: x in kept ==> x in s[..i]
    ensures NoDup(s) && NoDup(kept) ==> NoDup(kept + [s[i]])
  {
    if NoDup(s) {
      assert s[i] !in s[..i];
      assert forall j :: 0 <= j < |kept| ==> kept[j] in s[..i];
    }
  }

  method ByName(names: seq<EntityName>, selected: seq<EntityName>) returns (kept: seq<EntityName>)
    ensures forall n :: n in kept <==> n in names && n in selected
    ensures NoDup(names) ==> NoDup(kept)
  {
    kept := [];
    for i := 0 to |names|
      invariant forall n :: n in kept <==> n in names[..i] && n in selected
      invariant NoDup(names) ==> NoDup(kept)
    {
      assert names[..i + 1] == names[..i] + [names[i]];
      if names[i] in selected {
        NoDupSnoc(names, i, kept);
        kept := kept + [names[i]];
      }
    }
    assert names[..|names|] == names;
  }

  method ByAllComponents(comps: seq<CompName>, selected: seq<EntityName>, entities: Entities)
    returns (kept: seq<EntityName>)
    ensures forall n :: n in kept <==>
              n in selected && n in entities && forall c :: c in comps ==> c in entities[n].components
    ensures NoDup(selected) ==> NoDup(kept)
  {
    kept := [];
    for i := 0 to |selected|
      invariant NoDup(selected) ==> NoDup(kept)
      invariant forall n :: n in kept <==>
                  n in selected[..i] && n in entities && forall c :: c in comps ==> c in entities[n].components
    {
      assert selected[..i + 1] == selected[..i] + [selected[i]];
      var name := selected[i];
      if name in entities {
        var hasAll := true;
        for j := 0 to |comps|
          invariant hasAll <==> forall c :: c in comps[..j] ==> c in entities[name].components
        {
          assert comps[..j + 1] == comps[..j] + [comps[j]];
          if comps[j] !in entities[name].components {
            hasAll := false;
          }
        }
        assert comps[..|comps|] == comps;
        if hasAll {
          NoDupSnoc(selected, i, kept);
          kept := kept + [name];
        }
      }
    }
    assert selected[..|selected|] == selected;
  }

  /** Selects anew from the whole partition, stopping at the limit. */
  method ByComponent(comp: CompName, entities: Entities, limit: Option<nat>) returns (kept: seq<EntityName>)
    ensures forall n :: n in kept ==> n in entities && comp in entities[n].components
    ensures NoDup(kept)
    ensures limit.None? || |kept| < limit.value ==>
              forall n :: n in entities && comp in entities[n].components ==> n in kept
  {
    kept := [];
    var todo := entities.Keys;
    while todo != {}
      invariant todo <= entities.Keys
      invariant forall n :: n in kept ==> n in entities && n !in todo && comp in entities[n].components
      invariant forall n :: n in entities && n !in todo && comp in entities[n].components ==> n in kept
      invariant NoDup(kept)
    {
      var n :| n in todo;
      todo := todo - {n};
      if comp in entities[n].components {
        kept := kept + [n];
        if limit.Some? && |kept| >= limit.value { break; }
      }
    }
  }

  method ByRange(f: Filter, selected: seq<EntityName>, entities: Entities)
    returns (r: Result<seq<EntityName>, QueryError>)
    requires f.VarRange?
    ensures r.Success? ==> forall n :: n in r.value <==>
              n in selected && n in entities && Passes(f, n, entities[n])
    ensures r.Failure? <==> exists n :: n in selected && n in entities && Errs(f, entities[n])
    ensures r.Success? && NoDup(selected) ==> NoDup(r.value)
  {
    var kept := [];
    for i := 0 to |selected|
      invariant NoDup(selected) ==> NoDup(kept)
      invariant forall n :: n in kept <==> n in selected[..i] && n in entities && Passes(f, n, entities[n])
      invariant forall n :: n in selected[..i] && n in entities ==> !Errs(f, entities[n])
    {
      assert selected[..i + 1] == selected[..i] + [selected[i]];
      var n := selected[i];
      if n in entities {
        var v := Ranged(f, entities[n]);
        if v.Some? {
          var e := RangeError(f, v.value);
          if e.Some? { return Failure(e.value); }
          if InRange(f, v.value) {
            NoDupSnoc(selected, i, kept);
            kept := kept + [n];
          }
        }
      }
    }
    assert selected[..|selected|] == selected;
    return Success(kept);
  }

  /** All keys of a map, in some order. */
  method Keys(m: Entities) returns (s: seq<EntityName>)
    ensures ToSet(s) == m.Keys && NoDup(s)
  {
    s := [];
    var todo := m.Keys;
    while todo != {}
      invariant todo <= m.Keys && ToSet(s) == m.Keys - todo && NoDup(s)
    {
      var n :| n in todo;
      todo := todo - {n};
      assert n !in ToSet(s);
      ToSetConcat(s, [n]);
      s := s + [n];
    }
  }

  /** The list holds some of the elements, within the limit, and all of them if it is not full. */
  ghost predicate Kept(all: set<EntityName>, limit: Option<nat>, s: seq<EntityName>) {
    && ToSet(s) <= all
    && (limit.Some? ==> |s| <= limit.value)
    && (limit.None? || |s| < limit.value ==> ToSet(s) == all)
  }

  /** So without repetitions it holds as many as the limit allows. */
  lemma KeptCount(all: set<EntityName>, limit: Option<nat>, s: seq<EntityName>)
    requires Kept(all, limit, s) && NoDup(s)
    ensures |ToSet(s)| == |s| == AtMost(limit, |all|)
  {
    SetOfSeq(s);
    NoDupCount(s);
    PartOfSameSize(ToSet(s), all);
  }

  lemma {:induction false} NoDupCount<T>(s: seq<T>)
    requires NoDup(s)
    ensures |ToSet(s)| == |s|
    decreases |s|
  {
    if s != [] {
      NoDupCount(s[1..]);
      assert s == [s[0]] + s[1..];
      assert ToSet(s) == {s[0]} + ToSet(s[1..]);
    }
  }

  /** One round of the filter loop, on the live and on the archived selection. */
  method ApplyFilter(q: Query, f: Filter, selected: seq<EntityName>, archivedSel: seq<EntityName>, entities: Entities)
    returns (r: Result<(seq<EntityName>, seq<EntityName>), QueryError>)
    requires forall n :: n in selected ==> n in entities
    requires q.archive.Include? || archivedSel == []
    ensures r.Failure? <==> f.UnsupportedFilter? || exists n :: n in selected && Errs(f, entities[n])
    ensures r.Success? ==> Kept(Passing(f, ToSet(selected), entities), q.limit, r.value.0)
    ensures r.Success? ==> Kept(PassingArchived(f, ToSet(archivedSel)), q.limit, r.value.1)
    ensures r.Success? && (f.Name? ==> NoDup(f.names)) ==>
              && (NoDup(selected) ==> NoDup(r.value.0)) && (NoDup(archivedSel) ==> NoDup(r.value.1))
  {
    var kept: seq<EntityName>, keptArchived: seq<EntityName> := [], [];
    match f {
      case Name(names) =>
        if !q.archive.Ignore? {
          keptArchived := ByName(names, archivedSel);
        }
        kept := ByName(names, selected);
      case AllComponents(comps) =>
        kept := ByAllComponents(comps, selected, entities);
      case Node =>
        kept := selected;
      case Component(comp) =>
        kept := ByComponent(comp, entities, q.limit);
      case VarRange(_, _, _) =>
        var ranged := ByRange(f, selected, entities);
        if ranged.Failure? { return Failure(ranged.error); }
        kept := ranged.value;
      case UnsupportedFilter =>
        return Failure(Unimplemented);
    }
    kept := Truncate(kept, q.limit);
    keptArchived := Truncate(keptArchived, q.limit);
    return Success((kept, keptArchived));
  }

  /** The limit, if there is one, has room for everything, and no filter repeats a name. */
  ghost predicate Ample(q: Query, entities: Entities, archive: Option<Entities>) {
    || q.limit.None?
    || (NamesOnce(q.filters) && |entities| <= q.limit.value && |Opened(archive)| <= q.limit.value)
  }

  lemma NoLimitIsAmple(q: Query, entities: Entities, archive: Option<Entities>)
    requires q.limit.None?
    ensures Ample(q, entities, archive)
  {
  }

  /** What the filter loop has established after the filters `fs`. */
  ghost predicate Selecting(q: Query, fs: seq<Filter>, entities: Entities, archive: Option<Entities>,
                            selected: seq<EntityName>, archivedSel: seq<EntityName>) {
    && (forall n :: n in selected ==> n in entities && Alive(fs, n, entities[n]))
    && (Ample(q, entities, archive) ==> forall n :: n in entities && Alive(fs, n, entities[n]) ==> n in selected)
    && (q.limit.Some? && fs != [] ==> |selected| <= q.limit.value)
    && (q.archive.Include? || archivedSel == [])
    && (q.archive.Include? ==> archive.Some?)
    && (forall n :: n in archivedSel ==>
          archive.Some? && n in archive.value && ArchivedChosen(q.(filters := fs), n))
    && (Ample(q, entities, archive) ==> forall n ::
          (archive.Some? && n in archive.value && ArchivedChosen(q.(filters := fs), n)) ==> n in archivedSel)
    && Supported(fs)
    && (Ample(q, entities, archive) ==> !SomeFails(fs, entities))
  }

  /** And how many it has chosen, if no filter repeats a name. */
  ghost predicate Choosing(q: Query, fs: seq<Filter>, entities: Entities, archive: Option<Entities>,
                           selected: seq<EntityName>, archivedSel: seq<EntityName>) {
    NamesOnce(q.filters) ==>
      && NoDup(selected) && NoDup(archivedSel)
      && Choosable(fs, entities, q.limit, ToSet(selected))
      && (q.archive.Include? ==> ChoosableArchived(fs, Opened(archive).Keys, q.limit, ToSet(archivedSel)))
  }

  lemma ChoosingStep(q: Query, fs: seq<Filter>, entities: Entities, archive: Option<Entities>,
                     selected: seq<EntityName>, archivedSel: seq<EntityName>,
                     f: Filter, kept: seq<EntityName>, keptArchived: seq<EntityName>)
    requires Choosing(q, fs, entities, archive, selected, archivedSel) && f in q.filters
    requires Kept(Passing(f, ToSet(selected), entities), q.limit, kept)
    requires Kept(PassingArchived(f, ToSet(archivedSel)), q.limit, keptArchived)
    requires (f.Name? ==> NoDup(f.names)) ==>
               (NoDup(selected) ==> NoDup(kept)) && (NoDup(archivedSel) ==> NoDup(keptArchived))
    ensures Choosing(q, fs + [f], entities, archive, kept, keptArchived)
  {
    if NamesOnce(q.filters) {
      hide NoDup, ToSet, Passing, PassingArchived;
      KeptCount(Passing(f, ToSet(selected), entities), q.limit, kept);
      KeptCount(PassingArchived(f, ToSet(archivedSel)), q.limit, keptArchived);
      assert (fs + [f])[..|fs|] == fs;
    }
  }

  /** Where the limit has room for everything, everything that passes is kept. */
  lemma KeptAll(q: Query, fs: seq<Filter>, entities: Entities, archive: Option<Entities>,
                kept: seq<EntityName>, keptArchived: seq<EntityName>)
    requires Choosing(q, fs, entities, archive, kept, keptArchived) && Ample(q, entities, archive) && q.limit.Some?
    ensures forall n :: n in entities && Alive(fs, n, entities[n]) ==> n in kept
    ensures q.archive.Include? ==>
              forall n :: n in Opened(archive) && ArchivedChosen(q.(filters := fs), n) ==> n in keptArchived
  {
    hide Choosable, ChoosableArchived, Alive, ArchivedChosen, NoDup;
    assert |Opened(archive).Keys| == |Opened(archive)| && |entities.Keys| == |entities|;
    assert forall n :: n in kept <==> n in ToSet(kept);
    assert forall n :: n in keptArchived <==> n in ToSet(keptArchived);
    ChoosableIfAmple(fs, entities, q.limit, ToSet(kept));
    if q.archive.Include? { ArchivedIfAmple(q, fs, Opened(archive).Keys, q.limit, ToSet(keptArchived)); }
  }

  lemma SelectingStep(q: Query, fs: seq<Filter>, entities: Entities, archive: Option<Entities>,
                      selected: seq<EntityName>, archivedSel: seq<EntityName>,
                      f: Filter, kept: seq<EntityName>, keptArchived: seq<EntityName>)
    requires Selecting(q, fs, entities, archive, selected, archivedSel)
    requires !f.UnsupportedFilter? && forall n :: n in selected ==> !Errs(f, entities[n])
    requires Kept(Passing(f, ToSet(selected), entities), q.limit, kept)
    requires Kept(PassingArchived(f, ToSet(archivedSel)), q.limit, keptArchived)
    requires Choosing(q, fs + [f], entities, archive, kept, keptArchived)
    ensures Selecting(q, fs + [f], entities, archive, kept, keptArchived)
  {
    hide ArchivedChosen, Failing, Alive, SomeFails, Passes, Errs, NamesOnce, NoDup, Choosable, ChoosableArchived;
    ArchivedSnoc(q, fs, f);
    assert |keptArchived| > 0 ==> keptArchived[0] in ToSet(keptArchived);
    assert forall n :: n in kept <==> n in ToSet(kept);
    assert forall n :: n in keptArchived <==> n in ToSet(keptArchived);
    forall n: EntityName, e: Entity
      ensures Alive(fs + [f], n, e) <==> Passes(f, n, e) && (f.Component? || Alive(fs, n, e))
    {
      AliveSnoc(fs, f, n, e);
    }
    if Ample(q, entities, archive) {
      NoneFailsSnoc(fs, f, entities, selected);
      if q.limit.Some? { KeptAll(q, fs + [f], entities, archive, kept, keptArchived); }
    }
  }

  lemma AliveSnoc(fs: seq<Filter>, f: Filter, n: EntityName, e: Entity)
    ensures Alive(fs + [f], n, e) <==> Passes(f, n, e) && (f.Component? || Alive(fs, n, e))
    ensures Failing(fs + [f], n, e) <==> Failing(fs, n, e) || (Errs(f, e) && Alive(fs, n, e))
  {
    assert (fs + [f])[..|fs|] == fs;
  }

  lemma NoneFailsSnoc(fs: seq<Filter>, f: Filter, entities: Entities, selected: seq<EntityName>)
    requires !SomeFails(fs, entities) && forall n :: n in selected ==> n in entities && !Errs(f, entities[n])
    requires forall n :: n in entities && Alive(fs, n, entities[n]) ==> n in selected
    ensures !SomeFails(fs + [f], entities)
  {
    hide Alive, Failing, Errs;
    forall n | n in entities
      ensures !Failing(fs + [f], n, entities[n])
    {
      AliveSnoc(fs, f, n, entities[n]);
    }
  }

  lemma SelectingFails(q: Query, fs: seq<Filter>, entities: Entities, archive: Option<Entities>,
                       selected: seq<EntityName>, archivedSel: seq<EntityName>, f: Filter, n: EntityName)
    requires Selecting(q, fs, entities, archive, selected, archivedSel)
    requires n in selected && Errs(f, entities[n])
    ensures SomeFails(fs + [f], entities)
  {
    var all := fs + [f];
    assert all[..|all| - 1] == fs && all[|all| - 1] == f;
    assert Failing(all, n, entities[n]);
  }

  method SelectEntities(q: Query, entities: Entities, archive: Option<Entities>)
    returns (r: Result<(seq<EntityName>, seq<EntityName>), QueryError>)
    ensures r.Success? ==> Selecting(q, q.filters, entities, archive, r.value.0, r.value.1)
    ensures r.Success? ==> Choosing(q, q.filters, entities, archive, r.value.0, r.value.1)
    ensures r.Success? ==> !(q.archive.Include? && archive.None?) && Supported(q.filters)
    ensures !(q.archive.Include? && archive.None?) && Supported(q.filters) && !SomeFails(q.filters, entities)
        ==> r.Success?
    ensures Ample(q, entities, archive) && SomeFails(q.filters, entities) ==> r.Failure?
  {
    var selected := Keys(entities);
    var archivedSel: seq<EntityName> := [];
    if q.archive.Include? {
      if archive.None? { return Failure(ArchiveDisabled); }
      archivedSel := Keys(archive.value);
    }
    SelectingStart(q, entities, archive, selected, archivedSel);
    assert q.filters[..0] == [];
    for i := 0 to |q.filters|
      invariant Selecting(q, q.filters[..i], entities, archive, selected, archivedSel)
      invariant Choosing(q, q.filters[..i], entities, archive, selected, archivedSel)
    {
      hide *;
      var f := q.filters[i];
      ghost var front := q.filters[..i];
      assert q.filters[..i + 1] == front + [f];
      SelectingFacts(q, front, entities, archive, selected, archivedSel);
      var round := ApplyFilter(q, f, selected, archivedSel, entities);
      if round.Failure? {
        if f.UnsupportedFilter? {
          UnsupportedBlocks(q.filters, f);
        } else {
          ghost var n :| n in selected && Errs(f, entities[n]);
          SelectingFails(q, front, entities, archive, selected, archivedSel, f, n);
          FailsLater(front + [f], q.filters, entities);
        }
        return Failure(round.error);
      }
      ChoosingStep(q, front, entities, archive, selected, archivedSel, f, round.value.0, round.value.1);
      SelectingStep(q, front, entities, archive, selected, archivedSel, f, round.value.0, round.value.1);
      selected, archivedSel := round.value.0, round.value.1;
    }
    assert q.filters[..|q.filters|] == q.filters;
    return Success((selected, archivedSel));
  }

  lemma SelectingStart(q: Query, entities: Entities, archive: Option<Entities>,
                       selected: seq<EntityName>, archivedSel: seq<EntityName>)
    requires ToSet(selected) == entities.Keys && NoDup(selected) && NoDup(archivedSel)
    requires if q.archive.Include? then archive.Some? && ToSet(archivedSel) == archive.value.Keys else archivedSel == []
    ensures Selecting(q, [], entities, archive, selected, archivedSel)
    ensures Choosing(q, [], entities, archive, selected, archivedSel)
  {
    assert forall n :: n in selected <==> n in ToSet(selected);
    assert forall n :: n in archivedSel <==> n in ToSet(archivedSel);
  }

  lemma SelectingFacts(q: Query, fs: seq<Filter>, entities: Entities, archive: Option<Entities>,
                       selected: seq<EntityName>, archivedSel: seq<EntityName>)
    requires Selecting(q, fs, entities, archive, selected, archivedSel)
    ensures forall n :: n in selected ==> n in entities
    ensures q.archive.Include? || archivedSel == []
  {
  }

  lemma UnsupportedBlocks(fs: seq<Filter>, f: Filter)
    requires f in fs && f.UnsupportedFilter?
    ensures !Supported(fs)
  {
  }

  lemma ArchivedSnoc(q: Query, front: seq<Filter>, f: Filter)
    ensures forall n :: ArchivedChosen(q.(filters := front + [f]), n)
                   <==> ArchivedChosen(q.(filters := front), n) && f.Name? && n in f.names
  {
    assert forall g :: g in front + [f] <==> g in front || g == f;
    assert f in front + [f];
  }

  lemma {:induction false} FailsLater(front: seq<Filter>, fs: seq<Filter>, entities: Entities)
    requires front <= fs && SomeFails(front, entities)
    ensures SomeFails(fs, entities)
    decreases |fs| - |front|
  {
    if |front| < |fs| {
      var next := fs[..|front| + 1];
      assert next[..|next| - 1] == front;
      var n :| n in entities && Failing(front, n, entities[n]);
      assert Failing(next, n, entities[n]);
      FailsLater(next, fs, entities);
    } else {
      assert front == fs;
    }
  }

  // ----- the mapping loop -----

  predicate Wants(m: Mapping, k: StorageIndex) {
    match m
    case All => true
    case SelectAddrs(addrs) => k in addrs
    case Components(comps) => k.0 in comps
    case OneComponent(comp) => k.0 == comp
    case VarNamed(name) => k.1 == name
    case UnsupportedMapping => false
  }

  /** One component is a list of one; an address is one name in one component; and a list asks for what
      its parts ask for. */
  lemma WantsMeans(c: CompName, x: VarName, cs: seq<CompName>, ds: seq<CompName>,
                   a: seq<StorageIndex>, b: seq<StorageIndex>, k: StorageIndex)
    ensures Wants(All, k) && !Wants(UnsupportedMapping, k) && !Wants(Components([]), k) && !Wants(SelectAddrs([]), k)
    ensures Wants(OneComponent(c), k) <==> Wants(Components([c]), k)
    ensures Wants(SelectAddrs([(c, x)]), k) <==> Wants(OneComponent(c), k) && Wants(VarNamed(x), k)
    ensures Wants(SelectAddrs([k]), k) && Wants(OneComponent(k.0), k) && Wants(VarNamed(k.1), k)
    ensures Wants(SelectAddrs([(c, x)]), k) ==> k == (c, x)
    ensures Wants(Components(cs + ds), k) <==> Wants(Components(cs), k) || Wants(Components(ds), k)
    ensures Wants(SelectAddrs(a + b), k) <==> Wants(SelectAddrs(a), k) || Wants(SelectAddrs(b), k)
  {
  }

  predicate Wanted(ms: seq<Mapping>, k: StorageIndex) {
    exists m :: m in ms && Wants(m, k)
  }

  /** Mappings behind an `All` are not looked at. */
  predicate MappingsSupported(ms: seq<Mapping>) {
    ms == [] || (!ms[0].UnsupportedMapping? && (ms[0].All? || MappingsSupported(ms[1..])))
  }

  predicate Stored(entities: Entities, t: Triple) {
    t.0 in entities && (t.1, t.2) in entities[t.0].storage
  }

  /** The triples of the entities `names` that the mappings ask for. */
  ghost predicate Mapped(names: set<EntityName>, entities: Entities, ms: seq<Mapping>, data: Data) {
    && (forall t :: t in data <==> t.0 in names && Stored(entities, t) && Wanted(ms, (t.1, t.2)))
    && (forall t :: t in data ==> data[t] == entities[t.0].storage[(t.1, t.2)])
  }

  /** The memory's triples, and, if everything is mapped, the archived ones that memory lacks. */
  ghost predicate MappedBoth(q: Query, selected: set<EntityName>, archivedSel: set<EntityName>,
                             entities: Entities, archived: Entities, data: Data) {
    && (forall t :: t in data <==>
          || (t.0 in selected && Stored(entities, t) && Wanted(q.mappings, (t.1, t.2)))
          || (All in q.mappings && t.0 in archivedSel && Stored(archived, t)))
    && (forall t :: t in data ==>
          data[t] == if t.0 in selected && Stored(entities, t) then entities[t.0].storage[(t.1, t.2)]
                     else archived[t.0].storage[(t.1, t.2)])
  }

  /** `after` is `before` plus, with priority, what mapping `m` takes from the entities `names`. */
  ghost predicate Added(before: Data, m: Mapping, names: set<EntityName>, entities: Entities, after: Data) {
    && (forall t :: t in after <==> t in before || (t.0 in names && Stored(entities, t) && Wants(m, (t.1, t.2))))
    && (forall t :: t in after ==>
          after[t] == if t.0 in names && Stored(entities, t) && Wants(m, (t.1, t.2))
                      then entities[t.0].storage[(t.1, t.2)] else before[t])
  }

  /** One addressed variable after the other. */
  method AddAddressed(data: Data, addrs: seq<StorageIndex>, n: EntityName, entities: Entities) returns (r: Data)
    requires n in entities
    ensures Added(data, SelectAddrs(addrs), {n}, entities, r)
  {
    r := data;
    var storage := entities[n].storage;
    for i := 0 to |addrs|
      invariant Added(data, SelectAddrs(addrs[..i]), {n}, entities, r)
    {
      ghost var before := r;
      var k := addrs[i];
      if k in storage {
        r := r[(n, k.0, k.1) := storage[k]];
      }
      AddedAddress(data, addrs[..i], n, entities, before, k, r);
      assert addrs[..i + 1] == addrs[..i] + [k];
    }
    assert addrs[..|addrs|] == addrs;
  }

  lemma AddedAddress(a: Data, addrs: seq<StorageIndex>, n: EntityName, entities: Entities, b: Data, k: StorageIndex,
                     c: Data)
    requires n in entities && Added(a, SelectAddrs(addrs), {n}, entities, b)
    requires c == if k in entities[n].storage then b[(n, k.0, k.1) := entities[n].storage[k]] else b
    ensures Added(a, SelectAddrs(addrs + [k]), {n}, entities, c)
  {
    assert forall x :: x in addrs + [k] <==> x in addrs || x == k;
    assert (k.0, k.1) == k;
  }

  /** Every stored variable, in any order, kept if the mapping wants it. */
  method AddScanned(data: Data, m: Mapping, n: EntityName, entities: Entities) returns (r: Data)
    requires n in entities
    ensures Added(data, m, {n}, entities, r)
  {
    r := data;
    var storage := entities[n].storage;
    var todo := storage.Keys;
    while todo != {}
      invariant todo <= storage.Keys
      invariant forall t: Triple :: t in r <==>
                  t in data || (t.0 == n && (t.1, t.2) in storage && (t.1, t.2) !in todo && Wants(m, (t.1, t.2)))
      invariant forall t: Triple :: t in r ==>
                  r[t] == if t.0 == n && (t.1, t.2) in storage && (t.1, t.2) !in todo && Wants(m, (t.1, t.2))
                          then storage[(t.1, t.2)] else data[t]
    {
      var k :| k in todo;
      todo := todo - {k};
      assert (k.0, k.1) == k;
      if Wants(m, k) {
        r := r[(n, k.0, k.1) := storage[k]];
      }
    }
  }

  lemma AddedNothing(data: Data, m: Mapping, names: set<EntityName>, entities: Entities)
    requires forall n :: n in names ==> n !in entities
    ensures Added(data, m, names, entities, data)
  {
  }

  lemma OneMore(names: seq<EntityName>, i: nat)
    requires i < |names|
    ensures ToSet(names[..i + 1]) == ToSet(names[..i]) + {names[i]}
  {
    assert names[..i + 1] == names[..i] + [names[i]];
    ToSetConcat(names[..i], [names[i]]);
    assert ToSet([names[i]]) == {names[i]};
  }

  method AddMapping(data: Data, m: Mapping, names: seq<EntityName>, entities: Entities) returns (r: Data)
    ensures Added(data, m, ToSet(names), entities, r)
  {
    r := data;
    assert names[..0] == [] && ToSet(names[..0]) == {};
    AddedNothing(data, m, ToSet(names[..0]), entities);
    for i := 0 to |names|
      invariant Added(data, m, ToSet(names[..i]), entities, r)
    {
      hide Added, ToSet;
      OneMore(names, i);
      ghost var before := r;
      AddedNothingNew(r, m, names[i], entities);
      if names[i] in entities {
        if m.SelectAddrs? {
          r := AddAddressed(r, m.addrs, names[i], entities);
        } else {
          r := AddScanned(r, m, names[i], entities);
        }
      }
      AddedCompose(data, m, ToSet(names[..i]), {names[i]}, entities, before, r);
    }
    assert names[..|names|] == names;
  }

  lemma AddedNothingNew(data: Data, m: Mapping, n: EntityName, entities: Entities)
    ensures n !in entities ==> Added(data, m, {n}, entities, data)
  {
  }

  lemma AddedCompose(a: Data, m: Mapping, x: set<EntityName>, y: set<EntityName>, entities: Entities, b: Data, c: Data)
    requires Added(a, m, x, entities, b) && Added(b, m, y, entities, c)
    ensures Added(a, m, x + y, entities, c)
  {
  }

  method MapData(q: Query, selected: seq<EntityName>, archivedSel: seq<EntityName>, entities: Entities,
                 archived: Entities)
    returns (r: Result<Data, QueryError>)
    requires q.archive.Include? || archivedSel == []
    ensures r.Success? <==> MappingsSupported(q.mappings)
    ensures r.Success? ==> MappedBoth(q, ToSet(selected), ToSet(archivedSel), entities, archived, r.value)
  {
    var data: Data := map[];
    for i := 0 to |q.mappings|
      invariant Mapped(ToSet(selected), entities, q.mappings[..i], data)
      invariant All !in q.mappings[..i]
      invariant MappingsSupported(q.mappings) <==> MappingsSupported(q.mappings[i..])
    {
      var m := q.mappings[i];
      assert q.mappings[..i + 1] == q.mappings[..i] + [m];
      assert q.mappings[i..][1..] == q.mappings[i + 1..];
      if m.UnsupportedMapping? { return Failure(Unimplemented); }
      ghost var before := data;
      if m.All? {
        assert m in q.mappings;
        if !q.archive.Ignore? {
          data := AddMapping(data, All, archivedSel, archived);
        } else {
          assert Added(data, All, ToSet(archivedSel), archived, data);
        }
        ghost var middle := data;
        data := AddMapping(data, All, selected, entities);
        AllTaken(q, ToSet(selected), ToSet(archivedSel), entities, archived, q.mappings[..i], before, middle, data);
        return Success(data);
      }
      data := AddMapping(data, m, selected, entities);
      WantedSnoc(q.mappings[..i], m);
    }
    assert q.mappings[..|q.mappings|] == q.mappings;
    return Success(data);
  }

  lemma WantedSnoc(ms: seq<Mapping>, m: Mapping)
    ensures forall k :: Wanted(ms + [m], k) <==> Wanted(ms, k) || Wants(m, k)
  {
    forall k
      ensures Wanted(ms + [m], k) <==> Wanted(ms, k) || Wants(m, k)
    {
      if Wants(m, k) { assert m in ms + [m]; }
      if Wanted(ms, k) {
        var x :| x in ms && Wants(x, k);
        assert x in ms + [m];
      }
    }
  }

  lemma AllTaken(q: Query, selected: set<EntityName>, archivedSel: set<EntityName>, entities: Entities,
                 archived: Entities, ms: seq<Mapping>, a: Data, b: Data, c: Data)
    requires All in q.mappings && Mapped(selected, entities, ms, a)
    requires Added(a, All, archivedSel, archived, b) && Added(b, All, selected, entities, c)
    ensures MappedBoth(q, selected, archivedSel, entities, archived, c)
  {
    assert forall k :: Wants(All, k) && Wanted(q.mappings, k);
  }

  // ----- the layout of the result -----

  /** `vals` are the values of the map, each key counted once, in some order. */
  ghost predicate Enumerates<K, V>(m: map<K, V>, keys: seq<K>, vals: seq<V>) {
    && NoDup(keys) && ToSet(keys) == m.Keys && |vals| == |keys|
    && forall i :: 0 <= i < |keys| ==> keys[i] in m && vals[i] == m[keys[i]]
  }

  ghost predicate Lists<K(!new), V>(m: map<K, V>, vals: seq<V>) {
    exists keys :: Enumerates(m, keys, vals)
  }

  function OfEntity(data: Data, n: EntityName): Data {
    map t | t in data && t.0 == n :: data[t]
  }

  function AddressOf(t: Triple, v: Var): A.Address {
    A.Address(t.0, t.1, v.varType, t.2)
  }

  function Texts(vals: seq<Var>): seq<string> {
    seq(|vals|, i requires 0 <= i < |vals| => vals[i].text)
  }

  ghost predicate IsAddressed(data: Data, m: map<A.Address, Var>) {
    && (forall t :: t in data ==> AddressOf(t, data[t]) in m && m[AddressOf(t, data[t])] == data[t])
    && (forall a :: a in m ==> var t := (a.entity, a.comp, a.varName); t in data && a == AddressOf(t, data[t]))
  }

  function FloatOf(v: Var): real {
    v.floatValue
  }

  function BoolOf(v: Var): bool {
    v.intValue > 0
  }

  function IntOf(v: Var): int {
    v.intValue
  }

  /** The values of one type, by address. */
  ghost predicate IsTypedAs<T>(data: Data, varType: A.VarType, value: Var -> T, m: map<A.Address, T>) {
    && (forall t :: t in data && data[t].varType == varType ==>
          AddressOf(t, data[t]) in m && m[AddressOf(t, data[t])] == value(data[t]))
    && (forall a :: a in m ==>
          var t := (a.entity, a.comp, a.varName);
          t in data && data[t].varType == varType && a == AddressOf(t, data[t]))
  }

  /** Floats, bools and ints are kept apart; values of other types are dropped. */
  ghost predicate IsTyped(data: Data, floats: map<A.Address, real>, bools: map<A.Address, bool>,
                          ints: map<A.Address, int>) {
    && IsTypedAs(data, A.VarType.Float, FloatOf, floats)
    && IsTypedAs(data, A.VarType.Bool, BoolOf, bools)
    && IsTypedAs(data, A.VarType.Int, IntOf, ints)
  }

  ghost predicate IsNamed(data: Data, m: map<EntityName, Var>) {
    && (forall t :: t in data ==> t.0 in m)
    && (forall n :: n in m ==> exists t :: t in data && t.0 == n && data[t] == m[n])
  }

  ghost predicate IsMany(data: Data, m: map<EntityName, seq<Var>>) {
    && (forall t :: t in data ==> t.0 in m)
    && (forall n :: n in m ==> OfEntity(data, n) != map[] && Lists(OfEntity(data, n), m[n]))
  }

  ghost predicate IsProduct(d: Description, layout: Layout, data: Data, p: Product) {
    Describable(d, layout) &&
    match d
    case NoDescription =>
      if layout.Vars? then p.VarList? && Lists(data, p.vars)
      else p.StringList? && exists vals :: Lists(data, vals) && p.strings == Texts(vals)
    case NativeDescribed => p == NativeAddressedVar(data)
    case Addressed =>
      if layout.Typed? then p.AddressedTyped? && IsTyped(data, p.floats, p.bools, p.ints) && p.typedStrings == map[]
      else p.AddressedVar? && IsAddressed(data, p.addressed)
    case ByEntity => p.NameAddressedVar? && IsNamed(data, p.named)
    case ByEntityMany => p.NameAddressedVars? && IsMany(data, p.namedMany)
    case UnsupportedDescription => false
  }

  predicate Describable(d: Description, layout: Layout) {
    || (layout.Vars? && !d.UnsupportedDescription?)
    || (layout.Strings? && d.NoDescription?)
    || (layout.Typed? && d.Addressed?)
  }

  lemma ListsSnoc<K(!new), V>(m: map<K, V>, vals: seq<V>, k: K, v: V)
    requires Lists(m, vals) && k !in m
    ensures Lists(m[k := v], vals + [v])
  {
    var keys :| Enumerates(m, keys, vals);
    assert k !in ToSet(keys);
    ToSetConcat(keys, [k]);
    NoDupConcat(keys, [k]);
    assert ToSet([k]) == {k} && NoDup([k]);
    hide ToSet, NoDup;
    var more, m', vals' := keys + [k], m[k := v], vals + [v];
    forall i | 0 <= i < |more|
      ensures more[i] in m' && vals'[i] == m'[more[i]]
    {
      if i < |keys| { assert more[i] == keys[i] && keys[i] in m; }
    }
    assert Enumerates(m', more, vals');
  }

  lemma ListsEmpty<K(!new), V>()
    ensures Lists<K, V>(map[], [])
  {
    assert Enumerates<K, V>(map[], [], []);
  }

  lemma OfEntitySnoc(data: Data, t: Triple, v: Var, n: EntityName)
    requires t !in data
    ensures OfEntity(data[t := v], n) == if n == t.0 then OfEntity(data, n)[t := v] else OfEntity(data, n)
    ensures n == t.0 ==> t !in OfEntity(data, n) && t in OfEntity(data[t := v], n)
    ensures OfEntity(data, n) != map[] ==> exists u :: u in data && u.0 == n
  {
    if u :| u in OfEntity(data, n) { assert u in data && u.0 == n; }
  }

  lemma ManySnoc(data: Data, m: map<EntityName, seq<Var>>, t: Triple, v: Var)
    requires IsMany(data, m) && t !in data
    ensures IsMany(data[t := v], m[t.0 := (if t.0 in m then m[t.0] else []) + [v]])
  {
    hide Lists, OfEntity;
    var n, data', m' := t.0, data[t := v], m[t.0 := (if t.0 in m then m[t.0] else []) + [v]];
    OfEntitySnoc(data, t, v, n);
    if n !in m { ListsEmpty<Triple, Var>(); }
    assert OfEntity(data', n) != map[];
    ListsSnoc(OfEntity(data, n), if n in m then m[n] else [], t, v);
    forall x | x in m'
      ensures OfEntity(data', x) != map[] && Lists(OfEntity(data', x), m'[x])
    {
      if x != n { OfEntitySnoc(data, t, v, x); }
    }
  }

  lemma AddressedSnoc(data: Data, m: map<A.Address, Var>, t: Triple, v: Var)
    requires IsAddressed(data, m) && t !in data
    ensures IsAddressed(data[t := v], m[AddressOf(t, v) := v])
  {
  }

  lemma NamedSnoc(data: Data, m: map<EntityName, Var>, t: Triple, v: Var)
    requires IsNamed(data, m) && t !in data
    ensures IsNamed(data[t := v], m[t.0 := v])
  {
    var data', m' := data[t := v], m[t.0 := v];
    forall n | n in m'
      ensures exists x :: x in data' && x.0 == n && data'[x] == m'[n]
    {
      if n == t.0 {
        assert t in data' && data'[t] == m'[n];
      } else {
        var x :| x in data && x.0 == n && data[x] == m[n];
        assert x in data' && data'[x] == m'[n];
      }
    }
  }

  lemma TypedSnoc<T>(data: Data, varType: A.VarType, value: Var -> T, m: map<A.Address, T>, t: Triple, v: Var)
    requires IsTypedAs(data, varType, value, m) && t !in data
    ensures IsTypedAs(data[t := v], varType, value, if v.varType == varType then m[AddressOf(t, v) := value(v)] else m)
  {
  }

  lemma ProductsStart()
    ensures IsTyped(map[], map[], map[], map[])
    ensures Lists<Triple, Var>(map[], []) && IsAddressed(map[], map[]) && IsNamed(map[], map[]) && IsMany(map[], map[])
  {
    ListsEmpty<Triple, Var>();
  }

  method DescribeTyped(data: Data) returns (r: Result<Product, QueryError>)
    ensures r.Success? && r.value.AddressedTyped?
    ensures IsTyped(data, r.value.floats, r.value.bools, r.value.ints) && r.value.typedStrings == map[]
  {
    var floats: map<A.Address, real>, bools: map<A.Address, bool>, ints: map<A.Address, int> := map[], map[], map[];
    ghost var seen: Data := map[];
    ProductsStart();
    hide IsTypedAs, IsMany, Lists, IsAddressed, IsNamed, AddressOf;
    var todo := data.Keys;
    while todo != {}
      invariant todo <= data.Keys
      invariant seen == map t | t in data && t !in todo :: data[t]
      invariant IsTyped(seen, floats, bools, ints)
    {
      var t :| t in todo;
      var v := data[t];
      todo := todo - {t};
      TypedSnoc(seen, A.VarType.Float, FloatOf, floats, t, v);
      TypedSnoc(seen, A.VarType.Bool, BoolOf, bools, t, v);
      TypedSnoc(seen, A.VarType.Int, IntOf, ints, t, v);
      if v.varType.Float? {
        floats := floats[AddressOf(t, v) := v.floatValue];
      } else if v.varType.Bool? {
        bools := bools[AddressOf(t, v) := v.intValue > 0];
      } else if v.varType.Int? {
        ints := ints[AddressOf(t, v) := v.intValue];
      }
      seen := seen[t := v];
    }
    assert seen == data;
    return Success(AddressedTyped(floats, bools, ints, map[]));
  }

  method DescribeValues(data: Data) returns (r: seq<Var>)
    ensures Lists(data, r)
  {
    r := [];
    ghost var seen: Data := map[];
    ProductsStart();
    hide *;
    var todo := data.Keys;
    while todo != {}
      invariant todo <= data.Keys
      invariant seen == map t | t in data && t !in todo :: data[t]
      invariant Lists(seen, r)
    {
      var t :| t in todo;
      var v := data[t];
      todo := todo - {t};
      ListsSnoc(seen, r, t, v);
      r := r + [v];
      seen := seen[t := v];
    }
    assert seen == data;
  }

  method DescribeNative(data: Data) returns (r: Data)
    ensures r == data
  {
    r := map[];
    ghost var seen: Data := map[];
    ProductsStart();
    hide *;
    var todo := data.Keys;
    while todo != {}
      invariant todo <= data.Keys
      invariant seen == map t | t in data && t !in todo :: data[t]
      invariant r == seen
    {
      var t :| t in todo;
      var v := data[t];
      todo := todo - {t};
      r := r[t := v];
      seen := seen[t := v];
    }
    assert seen == data;
  }

  method DescribeAddressed(data: Data) returns (r: map<A.Address, Var>)
    ensures IsAddressed(data, r)
  {
    r := map[];
    ghost var seen: Data := map[];
    ProductsStart();
    hide *;
    var todo := data.Keys;
    while todo != {}
      invariant todo <= data.Keys
      invariant seen == map t | t in data && t !in todo :: data[t]
      invariant IsAddressed(seen, r)
    {
      var t :| t in todo;
      var v := data[t];
      todo := todo - {t};
      AddressedSnoc(seen, r, t, v);
      r := r[AddressOf(t, v) := v];
      seen := seen[t := v];
    }
    assert seen == data;
  }

  method DescribeEntity(data: Data) returns (r: map<EntityName, Var>)
    ensures IsNamed(data, r)
  {
    r := map[];
    ghost var seen: Data := map[];
    ProductsStart();
    hide *;
    var todo := data.Keys;
    while todo != {}
      invariant todo <= data.Keys
      invariant seen == map t | t in data && t !in todo :: data[t]
      invariant IsNamed(seen, r)
    {
      var t :| t in todo;
      var v := data[t];
      todo := todo - {t};
      NamedSnoc(seen, r, t, v);
      r := r[t.0 := v];
      seen := seen[t := v];
    }
    assert seen == data;
  }

  method DescribeEntityMany(data: Data) returns (r: map<EntityName, seq<Var>>)
    ensures IsMany(data, r)
  {
    r := map[];
    ghost var seen: Data := map[];
    ProductsStart();
    hide *;
    var todo := data.Keys;
    while todo != {}
      invariant todo <= data.Keys
      invariant seen == map t | t in data && t !in todo :: data[t]
      invariant IsMany(seen, r)
    {
      var t :| t in todo;
      var v := data[t];
      todo := todo - {t};
      ManySnoc(seen, r, t, v);
      r := r[t.0 := (if t.0 in r then r[t.0] else []) + [v]];
      seen := seen[t := v];
    }
    assert seen == data;
  }

  method Describe(d: Description, layout: Layout, data: Data) returns (r: Result<Product, QueryError>)
    ensures r.Success? <==> Describable(d, layout)
    ensures r.Success? ==> IsProduct(d, layout, data, r.value)
  {
    if !Describable(d, layout) { return Failure(Unimplemented); }
    hide Lists, IsAddressed, IsNamed, IsMany, IsTyped;
    match d {
      case NoDescription =>
        var vals := DescribeValues(data);
        r := Success(if layout.Vars? then VarList(vals) else StringList(Texts(vals)));
      case NativeDescribed =>
        var native := DescribeNative(data);
        r := Success(NativeAddressedVar(native));
      case Addressed =>
        if layout.Typed? {
          r := DescribeTyped(data);
        } else {
          var addressed := DescribeAddressed(data);
          r := Success(AddressedVar(addressed));
        }
      case ByEntity =>
        var named := DescribeEntity(data);
        r := Success(NameAddressedVar(named));
      case ByEntityMany =>
        var many := DescribeEntityMany(data);
        r := Success(NameAddressedVars(many));
    }
  }

  // ----- the whole query on one partition -----

  function Chosen(q: Query, entities: Entities): set<EntityName> {
    set n | n in entities && Alive(q.filters, n, entities[n])
  }

  function ChosenArchived(q: Query, archived: Entities): set<EntityName> {
    set n | n in archived && ArchivedChosen(q, n)
  }

  function Opened(archive: Option<Entities>): Entities {
    if archive.Some? then archive.value else map[]
  }

  /** The data a query without limit describes. */
  ghost predicate Describes(q: Query, entities: Entities, archive: Option<Entities>, data: Data) {
    MappedBoth(q, Chosen(q, entities), ChosenArchived(q, Opened(archive)), entities, Opened(archive), data)
  }

  /** `p` is a right answer to a query without limit. */
  ghost predicate Answers(q: Query, entities: Entities, archive: Option<Entities>, p: Product) {
    exists data :: Describes(q, entities, archive, data) && IsProduct(q.description, q.layout, data, p)
  }

  /** `p` answers the query from a selection within the limit, which is as large as the limit allows. */
  ghost predicate AnswersWithin(q: Query, entities: Entities, archive: Option<Entities>, limit: nat, p: Product) {
    exists names: set<EntityName>, archivedSel: set<EntityName>, data ::
      && names <= Chosen(q, entities) && archivedSel <= ChosenArchived(q, Opened(archive))
      && (q.filters != [] ==> |names| <= limit)
      && (NamesOnce(q.filters) ==>
            && Choosable(q.filters, entities, Some(limit), names)
            && (q.archive.Include? ==> ChoosableArchived(q.filters, Opened(archive).Keys, Some(limit), archivedSel)))
      && MappedBoth(q, names, archivedSel, entities, Opened(archive), data)
      && IsProduct(q.description, q.layout, data, p)
  }

  /** A query without limit can be processed. */
  ghost predicate Runs(q: Query, entities: Entities, archive: Option<Entities>) {
    && !(q.archive.Include? && archive.None?)
    && Supported(q.filters) && !SomeFails(q.filters, entities)
    && MappingsSupported(q.mappings) && Describable(q.description, q.layout)
  }

  function Touched(entities: Entities, names: set<EntityName>, now: nat): Entities {
    map n | n in entities :: if n in names then entities[n].Accessed(now) else entities[n]
  }

  /** Processes a query, reading the clock once. Mapping an entity counts as an access to it. */
  method ProcessQuery(q: Query, entities: Entities, archive: Option<Entities>, now: nat)
    returns (r: Result<Product, QueryError>, after: Entities)
    ensures Runs(q, entities, archive) ==> r.Success?
    ensures Ample(q, entities, archive) ==> (r.Success? <==> Runs(q, entities, archive))
    ensures Ample(q, entities, archive) && r.Success? ==> Answers(q, entities, archive, r.value)
    ensures q.limit.Some? && r.Success? ==> AnswersWithin(q, entities, archive, q.limit.value, r.value)
    ensures SameDataEverywhere(entities, after)
    ensures Ample(q, entities, archive) && r.Success? ==>
              after == map n | n in entities ::
                         var e := entities[n];
                         if q.mappings != [] && n in Chosen(q, entities)
                         then Entity(e.storage, e.components, EntityMeta(e.meta.lastMoved, Some(now)))
                         else e
  {
    hide Selecting, Choosing, MappedBoth, IsProduct, Ample, SomeFails, Alive, Supported, AnswersWithin, ToSet;
    after := entities;
    var chosen := SelectEntities(q, entities, archive);
    if chosen.Failure? { return Failure(chosen.error), after; }
    var selected, archivedSel := chosen.value.0, chosen.value.1;
    SelectedSets(q, entities, archive, selected, archivedSel);
    TouchedMeans(entities, ToSet(selected), now);
    if q.mappings != [] && !q.mappings[0].UnsupportedMapping? {
      after := Touched(entities, ToSet(selected), now);
    }
    var mapped := MapData(q, selected, archivedSel, entities, if archive.Some? then archive.value else map[]);
    if mapped.Failure? { return Failure(mapped.error), after; }
    r := Describe(q.description, q.layout, mapped.value);
    if r.Success? && q.limit.Some? {
      AnsweredWithin(q, entities, archive, selected, archivedSel, mapped.value, r.value);
    }
  }

  /** With room for everything the selection is what the query chooses. */
  lemma SelectedSets(q: Query, entities: Entities, archive: Option<Entities>,
                     selected: seq<EntityName>, archivedSel: seq<EntityName>)
    requires Selecting(q, q.filters, entities, archive, selected, archivedSel)
    ensures ToSet(selected) <= Chosen(q, entities) && ToSet(archivedSel) <= ChosenArchived(q, Opened(archive))
    ensures Ample(q, entities, archive) ==>
              ToSet(selected) == Chosen(q, entities) && ToSet(archivedSel) == ChosenArchived(q, Opened(archive))
    ensures Ample(q, entities, archive) ==> !SomeFails(q.filters, entities)
    ensures q.archive.Include? || archivedSel == []
    ensures (forall n :: n in selected ==> n in entities) && forall n :: n in archivedSel ==> n in Opened(archive)
  {
    hide Alive, SomeFails, Ample, Supported;
  }

  lemma AnsweredWithin(q: Query, entities: Entities, archive: Option<Entities>,
                       selected: seq<EntityName>, archivedSel: seq<EntityName>, data: Data, p: Product)
    requires Selecting(q, q.filters, entities, archive, selected, archivedSel) && q.limit.Some?
    requires Choosing(q, q.filters, entities, archive, selected, archivedSel)
    requires MappedBoth(q, ToSet(selected), ToSet(archivedSel), entities, Opened(archive), data)
    requires IsProduct(q.description, q.layout, data, p)
    ensures AnswersWithin(q, entities, archive, q.limit.value, p)
  {
    SelectedSets(q, entities, archive, selected, archivedSel);
    SetOfSeq(selected);
    assert q.filters != [] ==> |ToSet(selected)| <= q.limit.value;
    hide Selecting, MappedBoth, IsProduct, Chosen, ChosenArchived, NamesOnce, NoDup, ToSet, Choosable,
         ChoosableArchived;
  }

  /** An access sets its time and nothing else. */
  lemma TouchedMeans(entities: Entities, names: set<EntityName>, now: nat)
    ensures SameDataEverywhere(entities, Touched(entities, names, now)) && SameDataEverywhere(entities, entities)
    ensures Touched(entities, names, now)
         == map n | n in entities ::
              var e := entities[n];
              if n in names then Entity(e.storage, e.components, EntityMeta(e.meta.lastMoved, Some(now))) else e
  {
  }

  lemma {:induction false} SetOfSeq<T>(s: seq<T>)
    ensures |ToSet(s)| <= |s|
    decreases |s|
  {
    if s != [] {
      SetOfSeq(s[1..]);
      assert s == [s[0]] + s[1..];
      assert ToSet(s) == {s[0]} + ToSet(s[1..]);
    }
  }

  // ----- the order of filters -----

  function Swapped(fs: seq<Filter>, f: Filter, g: Filter, rest: seq<Filter>): seq<Filter> {
    fs + [g, f] + rest
  }

  lemma AliveTwo(fs: seq<Filter>, f: Filter, g: Filter, n: EntityName, e: Entity)
    requires !f.Component? && !g.Component?
    ensures Alive(fs + [f, g], n, e) <==> Alive(fs, n, e) && Passes(f, n, e) && Passes(g, n, e)
    ensures Failing(fs + [f, g], n, e)
       <==> Failing(fs, n, e) || (Alive(fs, n, e) && (Errs(f, e) || (Errs(g, e) && Passes(f, n, e))))
  {
    hide Passes, Errs;
    assert fs + [f, g] == fs + [f] + [g];
    AliveSnoc(fs + [f], g, n, e);
    AliveSnoc(fs, f, n, e);
  }

  /** Some filter of `rest`, applied after `fs`, cannot be evaluated on the entity. */
  predicate FailsIn(fs: seq<Filter>, rest: seq<Filter>, n: EntityName, e: Entity)
    decreases |rest|
  {
    rest != [] &&
    var f, front := rest[|rest| - 1], rest[..|rest| - 1];
    FailsIn(fs, front, n, e) || (Errs(f, e) && Alive(fs + front, n, e))
  }

  lemma {:induction false} FailingConcat(fs: seq<Filter>, rest: seq<Filter>, n: EntityName, e: Entity)
    ensures Failing(fs + rest, n, e) <==> Failing(fs, n, e) || FailsIn(fs, rest, n, e)
    decreases |rest|
  {
    if rest == [] {
      assert fs + rest == fs;
    } else {
      var f, front := rest[|rest| - 1], rest[..|rest| - 1];
      FailingConcat(fs, front, n, e);
      assert fs + rest == fs + front + [f];
      AliveSnoc(fs + front, f, n, e);
    }
  }

  /** Two filters other than `Component` select the same in either order, whatever follows. */
  lemma {:induction false} SelectionCommutes(fs: seq<Filter>, f: Filter, g: Filter, rest: seq<Filter>, n: EntityName,
                                             e: Entity)
    requires !f.Component? && !g.Component?
    ensures Alive(fs + [f, g] + rest, n, e) <==> Alive(Swapped(fs, f, g, rest), n, e)
    ensures FailsIn(fs + [f, g], rest, n, e) <==> FailsIn(fs + [g, f], rest, n, e)
    decreases |rest|
  {
    hide Passes, Errs;
    if rest == [] {
      AliveTwo(fs, f, g, n, e);
      AliveTwo(fs, g, f, n, e);
      assert fs + [f, g] + rest == fs + [f, g] && fs + [g, f] + rest == fs + [g, f];
    } else {
      var h, front := rest[|rest| - 1], rest[..|rest| - 1];
      SelectionCommutes(fs, f, g, front, n, e);
      assert fs + [f, g] + rest == fs + [f, g] + front + [h];
      assert fs + [g, f] + rest == fs + [g, f] + front + [h];
      AliveSnoc(fs + [f, g] + front, h, n, e);
      AliveSnoc(fs + [g, f] + front, h, n, e);
    }
  }

  /** The entity ends the query whichever of the two filters comes first. */
  predicate FailsEitherWay(fs: seq<Filter>, f: Filter, g: Filter, rest: seq<Filter>, n: EntityName, e: Entity) {
    || Failing(fs, n, e) || FailsIn(fs + [f, g], rest, n, e)
    || (Alive(fs, n, e) && ((Errs(f, e) && (Errs(g, e) || Passes(g, n, e))) || (Errs(g, e) && Passes(f, n, e))))
  }

  /** `f` cannot be evaluated on the entity, and `g`, which can, would have sorted it out before. */
  predicate SortedOut(fs: seq<Filter>, f: Filter, g: Filter, n: EntityName, e: Entity) {
    Alive(fs, n, e) && Errs(f, e) && !Errs(g, e) && !Passes(g, n, e)
  }

  lemma FailingTwo(fs: seq<Filter>, f: Filter, g: Filter, rest: seq<Filter>, n: EntityName, e: Entity)
    requires !f.Component? && !g.Component?
    ensures Failing(fs + [f, g] + rest, n, e) <==> FailsEitherWay(fs, f, g, rest, n, e) || SortedOut(fs, f, g, n, e)
    ensures FailsEitherWay(fs, f, g, rest, n, e) <==> FailsEitherWay(fs, g, f, rest, n, e)
  {
    hide Passes, Errs, Alive, Failing, FailsIn;
    FailingConcat(fs + [f, g], rest, n, e);
    AliveTwo(fs, f, g, n, e);
    SelectionCommutes(fs, f, g, rest, n, e);
  }

  /** On one entity the order of two filters other than `Component` matters if and only if just one of
      them cannot be evaluated, the other one rejects the entity, and nothing else fails on it. */
  lemma FailureCommutesIff(fs: seq<Filter>, f: Filter, g: Filter, rest: seq<Filter>, n: EntityName, e: Entity)
    requires !f.Component? && !g.Component?
    ensures (Failing(fs + [f, g] + rest, n, e) <==> Failing(Swapped(fs, f, g, rest), n, e))
       <==> FailsEitherWay(fs, f, g, rest, n, e) || !(SortedOut(fs, f, g, n, e) || SortedOut(fs, g, f, n, e))
  {
    FailingTwo(fs, f, g, rest, n, e);
    FailingTwo(fs, g, f, rest, n, e);
    hide Alive, Failing, FailsEitherWay;
  }

  ghost predicate SomeSortedOut(fs: seq<Filter>, f: Filter, g: Filter, entities: Entities) {
    exists n :: n in entities && SortedOut(fs, f, g, n, entities[n])
  }

  ghost predicate SomeFailsEitherWay(fs: seq<Filter>, f: Filter, g: Filter, rest: seq<Filter>, entities: Entities) {
    exists n :: n in entities && FailsEitherWay(fs, f, g, rest, n, entities[n])
  }

  lemma SomeFailsTwo(fs: seq<Filter>, f: Filter, g: Filter, rest: seq<Filter>, entities: Entities)
    requires !f.Component? && !g.Component?
    ensures SomeFails(fs + [f, g] + rest, entities)
       <==> SomeFailsEitherWay(fs, f, g, rest, entities) || SomeSortedOut(fs, f, g, entities)
    ensures SomeFailsEitherWay(fs, f, g, rest, entities) <==> SomeFailsEitherWay(fs, g, f, rest, entities)
  {
    hide Failing, FailsEitherWay, SortedOut;
    forall n | n in entities
      ensures Failing(fs + [f, g] + rest, n, entities[n])
         <==> FailsEitherWay(fs, f, g, rest, n, entities[n]) || SortedOut(fs, f, g, n, entities[n])
      ensures FailsEitherWay(fs, f, g, rest, n, entities[n]) <==> FailsEitherWay(fs, g, f, rest, n, entities[n])
    {
      FailingTwo(fs, f, g, rest, n, entities[n]);
    }
  }

  /** Swapping two filters other than `Component` never changes what a query selects. It changes whether
      the query can be processed if and only if everything else about the query is in order, no entity
      fails either way, and entities are sorted out before failing in exactly one of the two orders. */
  lemma OrderMattersIff(q: Query, fs: seq<Filter>, f: Filter, g: Filter, rest: seq<Filter>,
                        entities: Entities, archive: Option<Entities>)
    requires !f.Component? && !g.Component? && q.filters == fs + [f, g] + rest
    ensures var swapped := q.(filters := Swapped(fs, f, g, rest));
            && Chosen(swapped, entities) == Chosen(q, entities)
            && (Runs(q, entities, archive) != Runs(swapped, entities, archive)
                <==> && InOrder(q, archive)
                     && !SomeFailsEitherWay(fs, f, g, rest, entities)
                     && SomeSortedOut(fs, f, g, entities) != SomeSortedOut(fs, g, f, entities))
  {
    var swapped := q.(filters := Swapped(fs, f, g, rest));
    SomeFailsTwo(fs, f, g, rest, entities);
    SomeFailsTwo(fs, g, f, rest, entities);
    forall n | n in entities
      ensures Alive(q.filters, n, entities[n]) <==> Alive(swapped.filters, n, entities[n])
    {
      SelectionCommutes(fs, f, g, rest, n, entities[n]);
    }
    hide Alive, SomeFails, SomeSortedOut, SomeFailsEitherWay, MappingsSupported;
    assert forall h :: h in q.filters <==> h in swapped.filters;
  }

  /** What does not depend on the entities. */
  ghost predicate InOrder(q: Query, archive: Option<Entities>) {
    && !(q.archive.Include? && archive.None?)
    && Supported(q.filters) && MappingsSupported(q.mappings) && Describable(q.description, q.layout)
  }

  // ----- what an answer leaves open -----

  function Without<T>(s: seq<T>, j: nat): seq<T>
    requires j < |s|
  {
    s[..j] + s[j + 1..]
  }

  lemma WithoutIsLess<T>(s: seq<T>, j: nat)
    requires j < |s|
    ensures multiset(s) == multiset(Without(s, j)) + multiset{s[j]}
  {
    assert s == s[..j] + [s[j]] + s[j + 1..];
  }

  lemma WithoutAt<T>(s: seq<T>, j: nat, i: nat)
    requires j < |s| && i < |s| - 1
    ensures |Without(s, j)| == |s| - 1 && Without(s, j)[i] == s[if i < j then i else i + 1]
  {
  }

  lemma WithoutOthers<T>(s: seq<T>, j: nat)
    requires j < |s| && NoDup(s)
    ensures NoDup(Without(s, j)) && ToSet(Without(s, j)) == ToSet(s) - {s[j]}
  {
    var t := Without(s, j);
    forall x | x in s && x != s[j]
      ensures x in t
    {
      var i :| 0 <= i < |s| && s[i] == x;
      WithoutAt(s, j, if i < j then i else i - 1);
    }
    assert forall x :: x in t ==> x in s && x != s[j];
  }

  lemma EnumeratesWithout<K, V>(m: map<K, V>, keys: seq<K>, vals: seq<V>, j: nat)
    requires Enumerates(m, keys, vals) && j < |keys|
    ensures Enumerates(m - {keys[j]}, Without(keys, j), Without(vals, j))
  {
    WithoutOthers(keys, j);
    hide ToSet, NoDup, Without;
    assert (m - {keys[j]}).Keys == m.Keys - {keys[j]};
    assert |Without(keys, j)| == |Without(vals, j)| == |keys| - 1 by { hide *; LessByOne(keys, j); LessByOne(vals, j); }
    forall i | 0 <= i < |Without(keys, j)|
      ensures Without(keys, j)[i] in m && Without(vals, j)[i] == m[Without(keys, j)[i]]
      ensures Without(keys, j)[i] in ToSet(Without(keys, j))
    {
      WithoutAt(keys, j, i);
      WithoutAt(vals, j, i);
      InToSet(Without(keys, j), i);
    }
  }

  lemma LessByOne<T>(s: seq<T>, j: nat)
    requires j < |s|
    ensures |Without(s, j)| == |s| - 1
  {
  }

  lemma InToSet<T>(s: seq<T>, i: nat)
    requires i < |s|
    ensures s[i] in ToSet(s)
  {
  }

  lemma ListedAt<K, V>(m: map<K, V>, keys: seq<K>, vals: seq<V>, k: K) returns (j: nat)
    requires Enumerates(m, keys, vals) && k in m
    ensures j < |keys| && keys[j] == k && j < |vals| && vals[j] == m[k]
  {
    assert k in ToSet(keys);
    j :| 0 <= j < |keys| && keys[j] == k;
  }

  lemma NothingListed<K, V>(m: map<K, V>, keys: seq<K>, vals: seq<V>)
    requires Enumerates(m, keys, vals)
    ensures |vals| == |keys| && (keys == [] <==> m == map[]) && (keys != [] ==> keys[0] in m)
  {
    if keys == [] { assert ToSet(keys) == {}; } else { assert keys[0] in m; }
  }

  /** Two lists of the values of a map differ in their order only. */
  lemma {:induction false} ListsAgree<K, V>(m: map<K, V>, keys: seq<K>, vals: seq<V>, keys': seq<K>, vals': seq<V>)
    requires Enumerates(m, keys, vals) && Enumerates(m, keys', vals')
    ensures multiset(vals) == multiset(vals') && |vals| == |m|
    decreases |keys|
  {
    hide Enumerates;
    NothingListed(m, keys, vals);
    NothingListed(m, keys', vals');
    if keys == [] {
      assert vals == [] && vals' == [];
    } else {
      var i := ListedAt(m, keys, vals, keys[0]);
      var j := ListedAt(m, keys', vals', keys[0]);
      EnumeratesWithout(m, keys, vals, i);
      EnumeratesWithout(m, keys', vals', j);
      ListsAgree(m - {keys[0]}, Without(keys, i), Without(vals, i), Without(keys', j), Without(vals', j));
      hide Without;
      WithoutIsLess(vals, i);
      WithoutIsLess(vals', j);
      assert m.Keys == (m - {keys[0]}).Keys + {keys[0]};
    }
  }

  ghost predicate SameValues<T>(a: seq<T>, b: seq<T>) {
    multiset(a) == multiset(b)
  }

  /** Equal but for the order of lists, and for which variable stands for an entity that has several. */
  ghost predicate SameProduct(p: Product, r: Product) {
    match p
    case VarList(v) => r.VarList? && SameValues(v, r.vars)
    case StringList(v) => r.StringList? && SameValues(v, r.strings)
    case NameAddressedVar(m) => r.NameAddressedVar? && m.Keys == r.named.Keys
    case NameAddressedVars(m) =>
      r.NameAddressedVars? && m.Keys == r.namedMany.Keys && forall n :: n in m ==> SameValues(m[n], r.namedMany[n])
    case _ => p == r
  }

  lemma ListsAgreeToo<K(!new), V>(m: map<K, V>, vals: seq<V>, vals': seq<V>)
    requires Lists(m, vals) && Lists(m, vals')
    ensures SameValues(vals, vals') && |vals| == |m|
  {
    var k :| Enumerates(m, k, vals);
    var l :| Enumerates(m, l, vals');
    ListsAgree(m, k, vals, l, vals');
  }

  function TextOf(data: Data): map<Triple, string> {
    map t | t in data :: data[t].text
  }

  lemma TextsListed(data: Data, vals: seq<Var>)
    requires Lists(data, vals)
    ensures Lists(TextOf(data), Texts(vals))
  {
    var k :| Enumerates(data, k, vals);
    hide NoDup, ToSet;
    TextsEnumerated(data, k, vals);
  }

  lemma TextsEnumerated(data: Data, keys: seq<Triple>, vals: seq<Var>)
    requires Enumerates(data, keys, vals)
    ensures Enumerates(TextOf(data), keys, Texts(vals))
  {
    hide NoDup, ToSet;
    var m, texts := TextOf(data), Texts(vals);
    assert m.Keys == data.Keys;
    forall i | 0 <= i < |keys|
      ensures keys[i] in m && texts[i] == m[keys[i]]
    {
      assert keys[i] in data && vals[i] == data[keys[i]];
    }
  }

  lemma ManyAgree(data: Data, m: map<EntityName, seq<Var>>, l: map<EntityName, seq<Var>>)
    requires IsMany(data, m) && IsMany(data, l)
    ensures m.Keys == l.Keys && forall n :: n in m ==> SameValues(m[n], l[n])
  {
    hide Lists;
    forall n
      ensures n in m <==> n in l
    {
      if n in m { var t :| t in OfEntity(data, n); assert t in data; }
      if n in l { var t :| t in OfEntity(data, n); assert t in data; }
    }
    forall n | n in m
      ensures SameValues(m[n], l[n])
    {
      ListsAgreeToo(OfEntity(data, n), m[n], l[n]);
    }
  }

  lemma ProductsAgree(d: Description, layout: Layout, data: Data, p: Product, r: Product)
    requires IsProduct(d, layout, data, p) && IsProduct(d, layout, data, r)
    ensures SameProduct(p, r)
  {
    hide Lists, IsMany, SameValues, IsTypedAs, IsAddressed;
    match d
    case NoDescription =>
      if layout.Vars? {
        ListsAgreeToo(data, p.vars, r.vars);
      } else {
        var v :| Lists(data, v) && p.strings == Texts(v);
        var w :| Lists(data, w) && r.strings == Texts(w);
        TextsListed(data, v);
        TextsListed(data, w);
        ListsAgreeToo(TextOf(data), p.strings, r.strings);
      }
    case ByEntityMany => ManyAgree(data, p.namedMany, r.namedMany);
    case Addressed =>
      if layout.Typed? {
        TypedAgree(data, A.VarType.Float, FloatOf, p.floats, r.floats);
        TypedAgree(data, A.VarType.Bool, BoolOf, p.bools, r.bools);
        TypedAgree(data, A.VarType.Int, IntOf, p.ints, r.ints);
      } else {
        AddressedAgree(data, p.addressed, r.addressed);
      }
    case ByEntity =>
    case NativeDescribed =>
  }

  lemma TypedAgree<T>(data: Data, varType: A.VarType, value: Var -> T, m: map<A.Address, T>, l: map<A.Address, T>)
    requires IsTypedAs(data, varType, value, m) && IsTypedAs(data, varType, value, l)
    ensures m == l
  {
    forall a
      ensures a in m <==> a in l
      ensures a in m ==> m[a] == l[a]
    {
      var t := (a.entity, a.comp, a.varName);
    }
  }

  lemma AddressedAgree(data: Data, m: map<A.Address, Var>, l: map<A.Address, Var>)
    requires IsAddressed(data, m) && IsAddressed(data, l)
    ensures m == l
  {
    forall a
      ensures a in m <==> a in l
      ensures a in m ==> m[a] == l[a]
    {
      var t := (a.entity, a.comp, a.varName);
    }
  }

  lemma DataAgree(q: Query, entities: Entities, archive: Option<Entities>, a: Data, b: Data)
    requires Describes(q, entities, archive, a) && Describes(q, entities, archive, b)
    ensures a == b
  {
    hide Chosen, ChosenArchived, Wanted, Stored;
    assert forall t :: t in a <==> t in b;
  }

  /** Two answers to a query are the same product: the data a query describes is unique. */
  lemma AnswersAgree(q: Query, entities: Entities, archive: Option<Entities>, p: Product, r: Product)
    requires Answers(q, entities, archive, p) && Answers(q, entities, archive, r)
    ensures SameProduct(p, r)
  {
    hide IsProduct, SameProduct, Describes;
    var a :| Describes(q, entities, archive, a) && IsProduct(q.description, q.layout, a, p);
    var b :| Describes(q, entities, archive, b) && IsProduct(q.description, q.layout, b, r);
    DataAgree(q, entities, archive, a, b);
    ProductsAgree(q.description, q.layout, a, p, r);
  }

  // ----- conservation -----

  ghost function SomeName(m: map<EntityName, seq<Var>>): (n: EntityName)
    requires m != map[]
    ensures n in m
  {
    var n :| n in m; n
  }

  /** How many values there are in all. */
  ghost function Total(m: map<EntityName, seq<Var>>): nat {
    if m == map[] then 0 else |m[SomeName(m)]| + Total(m - {SomeName(m)})
  }

  function Apart(data: Data, n: EntityName): Data {
    map t | t in data && t.0 != n :: data[t]
  }

  lemma SplitByEntity(data: Data, n: EntityName)
    ensures |data| == |OfEntity(data, n)| + |Apart(data, n)|
    ensures forall x :: x != n ==> OfEntity(Apart(data, n), x) == OfEntity(data, x)
  {
    var mine, rest := OfEntity(data, n), Apart(data, n);
    assert data.Keys == mine.Keys + rest.Keys && mine.Keys !! rest.Keys;
    forall x | x != n
      ensures OfEntity(rest, x) == OfEntity(data, x)
    {
    }
  }

  lemma ManyApart(data: Data, m: map<EntityName, seq<Var>>, n: EntityName)
    requires IsMany(data, m)
    ensures IsMany(Apart(data, n), m - {n})
  {
    hide Lists, OfEntity;
    SplitByEntity(data, n);
  }

  /** The per-entity lists hold as many values as there are data. */
  lemma {:induction false} ManyConserves(data: Data, m: map<EntityName, seq<Var>>)
    requires IsMany(data, m)
    ensures Total(m) == |data|
    decreases |m|
  {
    if m == map[] {
      assert data == map[];
    } else {
      var n := SomeName(m);
      assert Lists(OfEntity(data, n), m[n]);
      ListsAgreeToo(OfEntity(data, n), m[n], m[n]);
      SplitByEntity(data, n);
      ManyApart(data, m, n);
      hide Lists, IsMany, OfEntity, Apart;
      assert m.Keys == (m - {n}).Keys + {n};
      ManyConserves(Apart(data, n), m - {n});
    }
  }

  // ----- merging products -----

  function Merge(p: Product, other: Product): Result<Product, QueryError> {
    match p
    case Empty => Success(other)
    case NameAddressedVar(m) =>
      if other.NameAddressedVar? then Success(NameAddressedVar(m + other.named)) else Failure(Unimplemented)
    case NameAddressedVars(m) =>
      if other.NameAddressedVars? then Success(NameAddressedVars(m + other.namedMany)) else Failure(Unimplemented)
    case AddressedVar(m) =>
      if other.AddressedVar? then Success(AddressedVar(m + other.addressed)) else Failure(Unimplemented)
    case VarList(v) => if other.VarList? then Success(VarList(v + other.vars)) else Failure(Unimplemented)
    case StringList(v) => if other.StringList? then Success(StringList(v + other.strings)) else Failure(Unimplemented)
    case NativeAddressedVar(_) => Failure(Unimplemented)
    case AddressedTyped(_, _, _, _) => Failure(Unimplemented)
  }

  /** Products of this description and layout can be merged. */
  predicate Joinable(d: Description, layout: Layout) {
    !d.NativeDescribed? && !layout.Typed?
  }

  ghost predicate NoSharedEntity(a: Data, b: Data) {
    forall t, u :: t in a && u in b ==> t.0 != u.0
  }

  lemma ListsConcat<K(!new), V>(a: map<K, V>, b: map<K, V>, v: seq<V>, w: seq<V>)
    requires Lists(a, v) && Lists(b, w) && a.Keys !! b.Keys
    ensures Lists(a + b, v + w)
  {
    var k :| Enumerates(a, k, v);
    var l :| Enumerates(b, l, w);
    ToSetConcat(k, l);
    NoDupConcat(k, l);
    assert Enumerates(a + b, k + l, v + w);
  }

  /** Products over data without a common entity merge to a product of all the data, unless they are
      native or typed. */
  lemma {:induction false} MergeProducts(d: Description, layout: Layout, a: Data, b: Data, p: Product, r: Product)
    requires IsProduct(d, layout, a, p) && IsProduct(d, layout, b, r) && NoSharedEntity(a, b)
    ensures Merge(p, r).Success? <==> Joinable(d, layout)
    ensures Joinable(d, layout) ==> IsProduct(d, layout, a + b, Merge(p, r).value)
  {
    hide Lists, IsAddressed, IsNamed, IsMany, IsTyped;
    match d
    case NoDescription =>
      SharedKeys(a, b);
      if layout.Vars? {
        ListsConcat(a, b, p.vars, r.vars);
      } else {
        var v :| Lists(a, v) && p.strings == Texts(v);
        var w :| Lists(b, w) && r.strings == Texts(w);
        ListsConcat(a, b, v, w);
        assert Texts(v + w) == Texts(v) + Texts(w);
      }
    case Addressed => if layout.Vars? { MergeAddressed(a, b, p.addressed, r.addressed); }
    case ByEntity => MergeNamed(a, b, p.named, r.named);
    case ByEntityMany => MergeMany(a, b, p.namedMany, r.namedMany);
    case NativeDescribed =>
  }

  lemma MergeNamed(a: Data, b: Data, m: map<EntityName, Var>, l: map<EntityName, Var>)
    requires IsNamed(a, m) && IsNamed(b, l) && NoSharedEntity(a, b)
    ensures IsNamed(a + b, m + l)
  {
    forall n | n in m + l
      ensures exists t :: t in a + b && t.0 == n && (a + b)[t] == (m + l)[n]
    {
      if n in l {
        var t :| t in b && t.0 == n && b[t] == l[n];
        assert t in a + b;
      } else {
        var t :| t in a && t.0 == n && a[t] == m[n];
        assert t in a + b && t !in b;
      }
    }
  }

  lemma SharedKeys(a: Data, b: Data)
    requires NoSharedEntity(a, b)
    ensures a.Keys !! b.Keys
  {
  }

  lemma MergeAddressed(a: Data, b: Data, m: map<A.Address, Var>, l: map<A.Address, Var>)
    requires IsAddressed(a, m) && IsAddressed(b, l) && NoSharedEntity(a, b)
    ensures IsAddressed(a + b, m + l)
  {
  }

  lemma OfEntityUnion(a: Data, b: Data, n: EntityName)
    requires NoSharedEntity(a, b)
    ensures OfEntity(b, n) != map[] ==> OfEntity(a + b, n) == OfEntity(b, n)
    ensures OfEntity(a, n) != map[] ==> OfEntity(a + b, n) == OfEntity(a, n)
  {
    if OfEntity(b, n) != map[] {
      var t :| t in OfEntity(b, n);
      assert t in b && t.0 == n;
      assert OfEntity(a + b, n) == OfEntity(b, n);
    }
    if OfEntity(a, n) != map[] {
      var t :| t in OfEntity(a, n);
      assert t in a && t.0 == n;
      assert OfEntity(a + b, n) == OfEntity(a, n);
    }
  }

  lemma MergeMany(a: Data, b: Data, m: map<EntityName, seq<Var>>, l: map<EntityName, seq<Var>>)
    requires IsMany(a, m) && IsMany(b, l) && NoSharedEntity(a, b)
    ensures IsMany(a + b, m + l)
  {
    hide Lists, OfEntity, NoSharedEntity;
    forall n | n in m + l
      ensures OfEntity(a + b, n) != map[] && Lists(OfEntity(a + b, n), (m + l)[n])
    {
      OfEntityUnion(a, b, n);
    }
  }

  // ----- queries over disjoint partitions -----

  /** Ignoring the archive, what a query describes on two partitions is what it describes on their
      union: selection and mapping look at one entity at a time. */
  lemma DescribesUnion(q: Query, e: Entities, f: Entities, ea: Option<Entities>, fa: Option<Entities>, a: Data, b: Data)
    requires q.archive.Ignore? && e.Keys !! f.Keys
    requires Describes(q, e, ea, a) && Describes(q, f, fa, b)
    ensures Describes(q, e + f, None, a + b) && NoSharedEntity(a, b)
  {
    assert ChosenArchived(q, Opened(ea)) == {} && ChosenArchived(q, Opened(fa)) == {};
    assert ChosenArchived(q, Opened(None)) == {};
    assert Chosen(q, e + f) == Chosen(q, e) + Chosen(q, f);
  }

  lemma RunsUnion(q: Query, e: Entities, f: Entities, fa: Option<Entities>)
    requires q.archive.Ignore? && e.Keys !! f.Keys
    ensures Runs(q, e + f, None) <==> Runs(q, e, None) && Runs(q, f, fa)
  {
    if n :| n in e && Failing(q.filters, n, e[n]) {
      assert n in e + f && Failing(q.filters, n, (e + f)[n]);
    }
    if n :| n in f && Failing(q.filters, n, f[n]) {
      assert n in e + f && Failing(q.filters, n, (e + f)[n]);
    }
  }

  /** A partition's answer merged into an answer for others answers for all of them. */
  lemma {:induction false} MergeAnswers(q: Query, e: Entities, f: Entities, fa: Option<Entities>, p: Product,
                                        r: Product)
    requires q.archive.Ignore? && e.Keys !! f.Keys && Joinable(q.description, q.layout)
    requires Answers(q, e, None, p) && Answers(q, f, fa, r)
    ensures Merge(p, r).Success? && Answers(q, e + f, None, Merge(p, r).value)
  {
    hide Describes, IsProduct, Merge, NoSharedEntity;
    var a :| Describes(q, e, None, a) && IsProduct(q.description, q.layout, a, p);
    var b :| Describes(q, f, fa, b) && IsProduct(q.description, q.layout, b, r);
    DescribesUnion(q, e, f, None, fa, a, b);
    MergeProducts(q.description, q.layout, a, b, p, r);
  }

  /** The archive plays no part in a query that ignores it. */
  lemma ArchiveIgnored(q: Query, e: Entities, archive: Option<Entities>, p: Product)
    requires q.archive.Ignore? && Answers(q, e, archive, p)
    ensures Answers(q, e, None, p)
  {
    var a :| Describes(q, e, archive, a) && IsProduct(q.description, q.layout, a, p);
    assert ChosenArchived(q, Opened(archive)) == ChosenArchived(q, Opened(None)) == {};
    assert Describes(q, e, None, a);
  }
}
