/** The table through which Go holds JavaScript values (`web/wasm_exec.js`): values are
    interned by `storeValue`, counted, and their slots recycled by `finalizeRef`.
    This module gives the table on values and what holds over every run; module
    GoRuntime has the object whose fields the code updates in place. */
module RefTable {
  import opened Memory

  // ---- JavaScript values ----

  /** Objects, functions and symbols are identities; numbers are bit patterns. */
  datatype JsValue =
    | Undefined
    | Null
    | Boolean(b: bool)
    | Number(d: Double)
    | BigInt(n: int)
    | Text(s: string)
    | Symbol(symbol: nat)
    | Object(object_: nat)
    | Function(function_: nat)

  const NAN_HEAD: U32 := 0x7FF8_0000
  const NAN: JsValue := Number(Double(NAN_HEAD, 0))
  const ZERO: JsValue := Number(Double(0, 0))
  const GLOBAL_THIS: JsValue := Object(0)
  const GO_THIS: JsValue := Object(1)

  /** One representative per JavaScript value under SameValueZero, the equality of Map
      keys (section 7.2.11 of ECMA-262): a single NaN, and -0 equal to 0. */
  function Canon(v: JsValue): JsValue {
    if v.Number? && IsNaN(v.d) then NAN
    else if v.Number? && IsZero(v.d) then ZERO
    else v
  }

  /** Values stored without the table: undefined and every number but the zeros. */
  predicate Unboxed(v: JsValue) {
    v.Undefined? || (v.Number? && !IsZero(v.d))
  }

  /** The flag in the low bits of the high word; NAN_HEAD has these bits clear. */
  function TypeFlag(v: JsValue): (flag: nat)
    ensures flag <= 4
  {
    match v
    case Object(_) => 1
    case Text(_) => 2
    case Symbol(_) => 3
    case Function(_) => 4
    case _ => 0
  }

  // ---- The table ----

  datatype Count = Infinite | Finite(n: int)

  function Bump(c: Count, delta: int): Count {
    if c.Infinite? then c else Finite(c.n + delta)
  }

  datatype Table = Table(
    values: seq<JsValue>,
    counts: seq<Count>,
    ids: map<JsValue, nat>,
    pool: seq<nat>)

  const PINNED: nat := 7
  const MAX_SLOTS: nat := 0xFFFF_FFFF

  const INITIAL_VALUES: seq<JsValue> :=
    [NAN, ZERO, Null, Boolean(true), Boolean(false), GLOBAL_THIS, GO_THIS]

  const INITIAL_IDS: map<JsValue, nat> :=
    map[ZERO := 1, Null := 2, Boolean(true) := 3, Boolean(false) := 4, GLOBAL_THIS := 5, GO_THIS := 6]

  const INITIAL: Table :=
    Table(INITIAL_VALUES, [Infinite, Infinite, Infinite, Infinite, Infinite, Infinite, Infinite], INITIAL_IDS, [])

  /** The id under which `v` is filed next: its own, a recycled one, or a new one. */
  function IdFor(t: Table, v: JsValue): nat {
    if Canon(v) in t.ids then t.ids[Canon(v)]
    else if t.pool != [] then t.pool[|t.pool| - 1]
    else |t.values|
  }

  predicate WellSized(t: Table) {
    && |t.counts| == |t.values|
    && (forall v <- t.ids :: t.ids[v] < |t.values|)
    && (forall i :: 0 <= i < |t.pool| ==> t.pool[i] < |t.values|)
  }

  function Interned(t: Table, v: JsValue): Table
    requires WellSized(t)
  {
    var id := IdFor(t, v);
    if Canon(v) in t.ids then
      t.(counts := t.counts[id := Bump(t.counts[id], 1)])
    else if t.pool != [] then
      Table(t.values[id := v], t.counts[id := Finite(1)], t.ids[Canon(v) := id], t.pool[..|t.pool| - 1])
    else
      Table(t.values + [v], t.counts + [Finite(1)], t.ids[Canon(v) := id], t.pool)
  }

  function Dropped(t: Table, id: nat): Table
    requires WellSized(t) && id < |t.values|
  {
    var counts := t.counts[id := Bump(t.counts[id], -1)];
    if counts[id] == Finite(0) then
      Table(t.values[id := Null], counts, t.ids - {Canon(t.values[id])}, t.pool + [id])
    else
      t.(counts := counts)
  }

  /** The eight-byte word that `storeValue` leaves for Go, and its decoding by `loadValue`. */
  function WordFor(t: Table, v: JsValue): Double {
    if Unboxed(v) then
      if v.Undefined? then Double(0, 0) else if IsNaN(v.d) then Double(NAN_HEAD, 0) else v.d
    else
      Double(NAN_HEAD + TypeFlag(v), ToUint32(IdFor(t, v)))
  }

  function Decoded(t: Table, word: Double): JsValue {
    if IsZero(word) then Undefined
    else if !IsNaN(word) then Number(word)
    else if word.lo < |t.values| then t.values[word.lo]
    else Undefined
  }

  // ---- Runs ----

  /** The table together with the references that Go holds to its slots. `held` is Go's
      own account: one more for each reference it is given, one less for each that it
      finalizes. It is not computed from the table. */
  datatype System = System(t: Table, held: multiset<nat>)

  const START: System := System(INITIAL, multiset{})

  datatype Op = Store(v: JsValue) | Finalize(id: nat)

  /** Go finalizes only references it holds; a table is a JavaScript array, so it has
      fewer than 2^32 slots. */
  predicate Legal(s: System, op: Op) {
    match op
    case Store(v) => Unboxed(v) || IdFor(s.t, v) < MAX_SLOTS
    case Finalize(id) => id in s.held
  }

  function Step(s: System, op: Op): System
    requires Inv(s) && Legal(s, op)
  {
    match op
    case Store(v) =>
      if Unboxed(v) then s else System(Interned(s.t, v), s.held + multiset{IdFor(s.t, v)})
    case Finalize(id) =>
      System(Dropped(s.t, id), s.held - multiset{id})
  }

  // ---- The invariant ----

  ghost predicate IsLive(s: System, id: int) {
    PINNED <= id < |s.t.values| && s.held[id] > 0
  }

  ghost predicate IsFree(s: System, id: int) {
    PINNED <= id < |s.t.values| && s.held[id] == 0
  }

  ghost predicate Sized(s: System) {
    && WellSized(s.t)
    && PINNED <= |s.t.values| <= MAX_SLOTS
    && s.t.values[..PINNED] == INITIAL_VALUES
    && (forall id :: 0 <= id < PINNED ==> s.t.counts[id] == Infinite)
    && (forall id <- s.held :: id < |s.t.values|)
  }

  /** The free list: each free slot once, and cleared. */
  ghost predicate PoolInv(s: System)
    requires Sized(s)
  {
    && (forall i, j :: 0 <= i < j < |s.t.pool| ==> s.t.pool[i] != s.t.pool[j])
    && (forall id :: id in s.t.pool <==> IsFree(s, id))
    && (forall id :: IsFree(s, id) ==> s.t.values[id] == Null)
  }

  /** The index holds only pinned values other than NaN, and live ones, each under its slot... */
  ghost predicate IndexSound(s: System)
    requires Sized(s)
  {
    forall v <- s.t.ids ::
      s.t.values[s.t.ids[v]] == v && !Unboxed(v) && (1 <= s.t.ids[v] < PINNED || IsLive(s, s.t.ids[v]))
  }

  /** ... and it holds all of them. */
  ghost predicate IndexComplete(s: System)
    requires Sized(s)
  {
    forall id :: 1 <= id < PINNED || IsLive(s, id) ==> s.t.values[id] in s.t.ids && s.t.ids[s.t.values[id]] == id
  }

  ghost predicate Canonical(s: System) {
    forall id :: 0 <= id < |s.t.values| ==> Canon(s.t.values[id]) == s.t.values[id]
  }

  ghost predicate CountInv(s: System)
    requires Sized(s)
  {
    forall id :: PINNED <= id < |s.t.values| ==> s.t.counts[id] == Finite(s.held[id])
  }

  ghost predicate Inv(s: System) {
    Sized(s) && PoolInv(s) && IndexSound(s) && IndexComplete(s) && Canonical(s) && CountInv(s)
  }

  lemma StartIndex()
    ensures forall v <- INITIAL_IDS ::
              1 <= INITIAL_IDS[v] < PINNED && INITIAL_VALUES[INITIAL_IDS[v]] == v && !Unboxed(v)
    ensures forall id :: 1 <= id < PINNED ==>
              INITIAL_VALUES[id] in INITIAL_IDS && INITIAL_IDS[INITIAL_VALUES[id]] == id
    ensures forall id :: 0 <= id < PINNED ==> Canon(INITIAL_VALUES[id]) == INITIAL_VALUES[id]
  {
  }

  lemma StartInv()
    ensures Inv(START)
  {
    StartIndex();
    assert START.t.values[..PINNED] == INITIAL_VALUES;
  }

  lemma StoreKnownKeepsInv(s: System, v: JsValue)
    requires Inv(s) && !Unboxed(v) && Canon(v) in s.t.ids
    ensures Inv(Step(s, Store(v)))
  {
    var s' := Step(s, Store(v));
    var id := s.t.ids[Canon(v)];
    assert s'.held == s.held[id := s.held[id] + 1];
    assert forall i :: IsLive(s', i) == IsLive(s, i) && IsFree(s', i) == IsFree(s, i);
  }

  /** A value missing from the index is its own representative: zero is never missing. */
  lemma NewIsCanonical(s: System, v: JsValue)
    requires Inv(s) && !Unboxed(v) && Canon(v) !in s.t.ids
    ensures Canon(v) == v
  {
    assert s.t.values[1] == INITIAL_VALUES[1] == ZERO;
    assert ZERO in s.t.ids;
  }

  lemma PoppedIsGone(pool: seq<nat>)
    requires pool != []
    requires forall i, j :: 0 <= i < j < |pool| ==> pool[i] != pool[j]
    ensures forall id :: id in pool[..|pool| - 1] <==> id in pool && id != pool[|pool| - 1]
  {
    assert pool == pool[..|pool| - 1] + [pool[|pool| - 1]];
  }

  lemma StoreRecycledTakesFree(s: System, v: JsValue)
    requires Inv(s) && !Unboxed(v) && Canon(v) !in s.t.ids && s.t.pool != []
    ensures var s', id := Step(s, Store(v)), IdFor(s.t, v);
            && IsFree(s, id) && s'.held == s.held[id := 1] && |s'.t.values| == |s.t.values|
            && (forall i :: IsFree(s', i) <==> IsFree(s, i) && i != id)
            && (forall i :: IsLive(s', i) <==> IsLive(s, i) || i == id)
  {
    var id := IdFor(s.t, v);
    assert id in s.t.pool && IsFree(s, id);
    assert Step(s, Store(v)).held == s.held[id := 1];
  }

  lemma StoreRecycledKeepsPool(s: System, v: JsValue)
    requires Inv(s) && !Unboxed(v) && Canon(v) !in s.t.ids && s.t.pool != []
    ensures var s' := Step(s, Store(v)); Sized(s') && PoolInv(s') && CountInv(s')
    ensures forall i :: IsLive(Step(s, Store(v)), i) <==> IsLive(s, i) || i == IdFor(s.t, v)
  {
    StoreRecycledTakesFree(s, v);
    PoppedIsGone(s.t.pool);
  }

  lemma StoreFreshKeepsPool(s: System, v: JsValue)
    requires Inv(s) && Legal(s, Store(v)) && !Unboxed(v) && Canon(v) !in s.t.ids && s.t.pool == []
    ensures var s' := Step(s, Store(v)); Sized(s') && PoolInv(s') && CountInv(s')
    ensures forall i :: IsLive(Step(s, Store(v)), i) <==> IsLive(s, i) || i == IdFor(s.t, v)
  {
    var s' := Step(s, Store(v));
    var id := IdFor(s.t, v);
    assert s.held[id] == 0;
    assert s'.held == s.held[id := 1];
  }

  /** In `s2` the new value `v` is filed under `id`, and all else is as in `s`. */
  ghost predicate Filed(s: System, s2: System, v: JsValue, id: nat) {
    && id <= |s.t.values| && |s2.t.values| == (if id < |s.t.values| then |s.t.values| else id + 1)
    && s2.t.values[id] == v && s2.t.ids == s.t.ids[v := id]
    && (forall i :: 0 <= i < |s.t.values| && i != id ==> s2.t.values[i] == s.t.values[i])
    && (forall i :: IsLive(s2, i) <==> IsLive(s, i) || i == id)
  }

  lemma FiledIsSound(s: System, s2: System, v: JsValue, id: nat)
    requires Sized(s) && Sized(s2) && IndexSound(s) && Filed(s, s2, v, id)
    requires !Unboxed(v) && v !in s.t.ids && !IsLive(s, id) && PINNED <= id
    ensures IndexSound(s2)
  {
  }

  lemma FiledIsComplete(s: System, s2: System, v: JsValue, id: nat)
    requires Sized(s) && Sized(s2) && IndexSound(s) && IndexComplete(s) && Filed(s, s2, v, id)
    requires v !in s.t.ids && !IsLive(s, id) && PINNED <= id
    ensures IndexComplete(s2)
  {
  }

  lemma StoreFiles(s: System, v: JsValue)
    requires Inv(s) && Legal(s, Store(v)) && !Unboxed(v) && Canon(v) !in s.t.ids
    requires forall i :: IsLive(Step(s, Store(v)), i) <==> IsLive(s, i) || i == IdFor(s.t, v)
    ensures Filed(s, Step(s, Store(v)), v, IdFor(s.t, v)) && Canon(v) == v
  {
    NewIsCanonical(s, v);
    var s' := Step(s, Store(v));
    var id := IdFor(s.t, v);
    assert s'.t.ids == s.t.ids[v := id];
  }

  /** Either way of finding a slot, the new value is filed under a slot that was not live. */
  lemma StoreNewKeepsIndex(s: System, v: JsValue)
    requires Inv(s) && Legal(s, Store(v)) && !Unboxed(v) && Canon(v) !in s.t.ids
    requires Sized(Step(s, Store(v)))
    requires !IsLive(s, IdFor(s.t, v)) && PINNED <= IdFor(s.t, v)
    requires forall i :: IsLive(Step(s, Store(v)), i) <==> IsLive(s, i) || i == IdFor(s.t, v)
    ensures var s' := Step(s, Store(v)); IndexSound(s') && IndexComplete(s') && Canonical(s')
  {
    StoreFiles(s, v);
    FiledIsSound(s, Step(s, Store(v)), v, IdFor(s.t, v));
    FiledIsComplete(s, Step(s, Store(v)), v, IdFor(s.t, v));
  }

  lemma StoreNewKeepsInv(s: System, v: JsValue)
    requires Inv(s) && Legal(s, Store(v)) && !Unboxed(v) && Canon(v) !in s.t.ids
    ensures Inv(Step(s, Store(v)))
  {
    var id := IdFor(s.t, v);
    if s.t.pool != [] {
      assert id in s.t.pool && IsFree(s, id);
      StoreRecycledKeepsPool(s, v);
    } else {
      StoreFreshKeepsPool(s, v);
    }
    StoreNewKeepsIndex(s, v);
  }

  /** A reference is dropped but its slot stays live, or is pinned. */
  lemma DropOneKeepsInv(s: System, id: nat)
    requires Inv(s) && id in s.held && (id < PINNED || s.held[id] > 1)
    ensures Inv(Step(s, Finalize(id)))
  {
    var s' := Step(s, Finalize(id));
    assert s'.held == s.held[id := s.held[id] - 1];
    assert forall i :: IsLive(s', i) == IsLive(s, i) && IsFree(s', i) == IsFree(s, i);
  }

  lemma DropLastKeepsPool(s: System, id: nat)
    requires Inv(s) && id >= PINNED && s.held[id] == 1
    ensures var s' := Step(s, Finalize(id)); Sized(s') && PoolInv(s') && CountInv(s')
    ensures forall i :: IsLive(Step(s, Finalize(id)), i) <==> IsLive(s, i) && i != id
  {
    var s' := Step(s, Finalize(id));
    assert IsLive(s, id) && id !in s.t.pool;
    assert s'.held == s.held[id := 0];
    forall i ensures i in s'.t.pool <==> IsFree(s', i) {
      assert s'.t.pool == s.t.pool + [id];
    }
  }

  lemma DropLastKeepsIndex(s: System, id: nat)
    requires Inv(s) && id >= PINNED && s.held[id] == 1
    requires Sized(Step(s, Finalize(id)))
    requires forall i :: IsLive(Step(s, Finalize(id)), i) <==> IsLive(s, i) && i != id
    ensures var s' := Step(s, Finalize(id)); IndexSound(s') && IndexComplete(s') && Canonical(s')
  {
    var s' := Step(s, Finalize(id));
    assert IsLive(s, id);
    assert s'.t.ids == s.t.ids - {s.t.values[id]};
    assert s'.t.values == s.t.values[id := Null];
  }

  lemma FinalizeKeepsInv(s: System, id: nat)
    requires Inv(s) && id in s.held
    ensures Inv(Step(s, Finalize(id)))
  {
    if id >= PINNED && s.held[id] == 1 {
      DropLastKeepsPool(s, id);
      DropLastKeepsIndex(s, id);
    } else {
      DropOneKeepsInv(s, id);
    }
  }

  /** Every operation keeps the invariant. */
  lemma StepKeepsInv(s: System, op: Op)
    requires Inv(s) && Legal(s, op)
    ensures Inv(Step(s, op))
  {
    match op
    case Store(v) =>
      if !Unboxed(v) {
        if Canon(v) in s.t.ids { StoreKnownKeepsInv(s, v); } else { StoreNewKeepsInv(s, v); }
      }
    case Finalize(id) => FinalizeKeepsInv(s, id);
  }

  // ---- Whole runs ----

  ghost predicate LegalRun(s: System, ops: seq<Op>)
    requires Inv(s)
    decreases |ops|
  {
    ops == [] || (Legal(s, ops[0]) && (StepKeepsInv(s, ops[0]); LegalRun(Step(s, ops[0]), ops[1..])))
  }

  ghost function Run(s: System, ops: seq<Op>): (r: System)
    requires Inv(s) && LegalRun(s, ops)
    ensures Inv(r)
    decreases |ops|
  {
    if ops == [] then s else StepKeepsInv(s, ops[0]); Run(Step(s, ops[0]), ops[1..])
  }

  /** In every reachable state each slot is of exactly one kind: pinned; live, counted
      and indexed; or free and in the free list exactly once. The index is a bijection
      onto the pinned slots other than NaN's and the live ones. */
  lemma SlotKinds(ops: seq<Op>, id: nat)
    requires (StartInv(); LegalRun(START, ops)) && id < |Run(START, ops).t.values|
    ensures
      var t := Run(START, ops).t;
      if id < PINNED then
        t.values[id] == INITIAL_VALUES[id] && t.counts[id] == Infinite && id !in t.pool
      else if t.counts[id] == Finite(0) then
        multiset(t.pool)[id] == 1 && (forall v <- t.ids :: t.ids[v] != id)
      else
        t.counts[id].Finite? && t.counts[id].n > 0 && id !in t.pool
        && t.values[id] in t.ids && t.ids[t.values[id]] == id
    ensures
      var t := Run(START, ops).t;
      && (forall v, w :: v in t.ids && w in t.ids && t.ids[v] == t.ids[w] ==> v == w)
      && ((exists v :: v in t.ids && t.ids[v] == id) <==> 1 <= id && (id < PINNED || t.counts[id] != Finite(0)))
  {
    StartInv();
    var s := Run(START, ops);
    if id >= PINNED {
      assert IsLive(s, id) || IsFree(s, id);
      if IsFree(s, id) { OccursOnce(s.t.pool, id); }
    } else if id >= 1 {
      assert s.t.values[id] in s.t.ids;
    }
  }

  lemma OccursOnce(pool: seq<nat>, id: nat)
    requires forall i, j :: 0 <= i < j < |pool| ==> pool[i] != pool[j]
    requires id in pool
    ensures multiset(pool)[id] == 1
  {
    var k :| 0 <= k < |pool| && pool[k] == id;
    assert pool == pool[..k] + [id] + pool[k + 1..];
    assert id !in pool[..k] && id !in pool[k + 1..];
  }

  /** `loadValue` undoes `storeValue`, for every value (with -0 read back as 0). */
  lemma LoadUndoesStore(s: System, v: JsValue)
    requires Inv(s) && Legal(s, Store(v))
    ensures Decoded(Step(s, Store(v)).t, WordFor(s.t, v)) == Canon(v)
  {
    StepKeepsInv(s, Store(v));
    if Unboxed(v) {
      assert s.t.values[0] == INITIAL_VALUES[0];
    } else {
      BoxedIsNaN(s.t, v);
      if Canon(v) !in s.t.ids { NewIsCanonical(s, v); }
    }
  }

  /** A value under one of the ids that the table starts with. */
  lemma PinnedId(s: System, v: JsValue, id: nat)
    requires Inv(s) && 1 <= id < PINNED && Canon(v) == INITIAL_VALUES[id]
    ensures IdFor(s.t, v) == id
  {
    assert s.t.values[..PINNED][id] == INITIAL_VALUES[id];
    assert s.t.values[id] in s.t.ids;
  }

  lemma PinnedObjects(s: System)
    requires Inv(s)
    ensures WordFor(s.t, GLOBAL_THIS) == Double(0x7FF8_0001, 5)
    ensures WordFor(s.t, GO_THIS) == Double(0x7FF8_0001, 6)
  {
    PinnedId(s, GLOBAL_THIS, 5);
    PinnedId(s, GO_THIS, 6);
  }

  /** The words of the values that the table starts with, in every reachable state. */
  lemma PinnedWords(s: System, zero: Double)
    requires Inv(s) && zero.lo == 0 && (zero.hi == 0 || zero.hi == 0x8000_0000)
    ensures WordFor(s.t, Number(zero)) == Double(0x7FF8_0000, 1)
    ensures WordFor(s.t, Null) == Double(0x7FF8_0000, 2)
    ensures WordFor(s.t, Boolean(true)) == Double(0x7FF8_0000, 3)
    ensures WordFor(s.t, Boolean(false)) == Double(0x7FF8_0000, 4)
    ensures WordFor(s.t, GLOBAL_THIS) == Double(0x7FF8_0001, 5)
    ensures WordFor(s.t, GO_THIS) == Double(0x7FF8_0001, 6)
  {
    PinnedId(s, Number(zero), 1);
    PinnedId(s, Null, 2);
    PinnedId(s, Boolean(true), 3);
    PinnedId(s, Boolean(false), 4);
    PinnedObjects(s);
  }

  /** The word for a value, kind by kind: what has no reference is itself, and a reference is a NaN with its
      kind in the low bits of the high half and its id in the low half. */
  predicate IsWordOf(word: Double, v: JsValue, id: nat) {
    word ==
    match v
    case Undefined => Double(0, 0)
    case Number(d) => if IsZero(d) then Double(0x7FF8_0000, 1) else if IsNaN(d) then Double(0x7FF8_0000, 0) else d
    case Null => Double(0x7FF8_0000, 2)
    case Boolean(b) => Double(0x7FF8_0000, if b then 3 else 4)
    case BigInt(_) => Double(0x7FF8_0000, ToUint32(id))
    case Object(_) => Double(0x7FF8_0001, ToUint32(id))
    case Text(_) => Double(0x7FF8_0002, ToUint32(id))
    case Symbol(_) => Double(0x7FF8_0003, ToUint32(id))
    case Function(_) => Double(0x7FF8_0004, ToUint32(id))
  }

  /** That is the word which Go is given in every reachable state, also for the values that the table
      starts with. */
  lemma WordsByKind(s: System, v: JsValue)
    requires Inv(s) && Legal(s, Store(v))
    ensures IsWordOf(WordFor(s.t, v), v, IdFor(s.t, v))
  {
    PinnedWords(s, if v.Number? && IsZero(v.d) then v.d else Double(0, 0));
  }

  lemma BoxedIsNaN(t: Table, v: JsValue)
    requires !Unboxed(v)
    ensures IsNaN(WordFor(t, v)) && !IsZero(WordFor(t, v))
  {
    assert NAN_HEAD / TWO20 % 2048 == 2047 && NAN_HEAD % TWO20 == 0x8_0000;
    var hi := WordFor(t, v).hi;
    assert hi == NAN_HEAD + TypeFlag(v);
    assert hi / TWO20 == 2047;
  }

  /** Words tell values apart: two values that Go can hold have the same word just when
      they are the same JavaScript value. In particular no ordinary number shares its
      bit pattern with a boxed reference. */
  lemma WordsIdentifyValues(s: System, v: JsValue, w: JsValue)
    requires Inv(s)
    requires Unboxed(v) || Canon(v) in s.t.ids
    requires Unboxed(w) || Canon(w) in s.t.ids
    ensures WordFor(s.t, v) == WordFor(s.t, w) <==> Canon(v) == Canon(w)
    ensures v.Number? && !IsZero(v.d) && !IsNaN(v.d) && !Unboxed(w) ==> WordFor(s.t, v) != WordFor(s.t, w)
  {
    DecodedNow(s, v);
    DecodedNow(s, w);
    if !Unboxed(w) { BoxedIsNaN(s.t, w); }
  }

  lemma DecodedNow(s: System, v: JsValue)
    requires Inv(s) && (Unboxed(v) || Canon(v) in s.t.ids)
    ensures Decoded(s.t, WordFor(s.t, v)) == Canon(v)
  {
    if Unboxed(v) {
      assert s.t.values[0] == INITIAL_VALUES[0];
    } else {
      BoxedIsNaN(s.t, v);
    }
  }

  /** Go holds at least one reference to `id` at every moment of the run. */
  ghost predicate Kept(s: System, ops: seq<Op>, id: nat)
    requires Inv(s) && LegalRun(s, ops)
    decreases |ops|
  {
    id in s.held && (ops == [] || (StepKeepsInv(s, ops[0]); Kept(Step(s, ops[0]), ops[1..], id)))
  }

  function Finalizes(ops: seq<Op>, id: nat): nat {
    if ops == [] then 0 else (if ops[0] == Finalize(id) then 1 else 0) + Finalizes(ops[1..], id)
  }

  /** A reference finalized less often than it is held is never let go. */
  lemma {:induction false} KeptWhileUnfinalized(s: System, ops: seq<Op>, id: nat)
    requires Inv(s) && LegalRun(s, ops) && Finalizes(ops, id) < s.held[id]
    ensures Kept(s, ops, id)
    decreases |ops|
  {
    if ops != [] {
      StepKeepsInv(s, ops[0]);
      KeptWhileUnfinalized(Step(s, ops[0]), ops[1..], id);
    }
  }

  lemma {:induction false} KeptSlotIsStable(s: System, ops: seq<Op>, id: nat)
    requires Inv(s) && LegalRun(s, ops) && Kept(s, ops, id)
    ensures id < |s.t.values| && id < |Run(s, ops).t.values|
    ensures Run(s, ops).t.values[id] == s.t.values[id]
    decreases |ops|
  {
    if ops != [] {
      var s' := Step(s, ops[0]);
      StepKeepsInv(s, ops[0]);
      KeptSlotIsStable(s', ops[1..], id);
      KeptStepIsStable(s, ops[0], id);
    }
  }

  lemma KeptStepIsStable(s: System, op: Op, id: nat)
    requires Inv(s) && Legal(s, op) && id in s.held && id in Step(s, op).held
    ensures var s' := Step(s, op); id < |s.t.values| && id < |s'.t.values| && s'.t.values[id] == s.t.values[id]
  {
    StepKeepsInv(s, op);
    if id < PINNED {
      assert Step(s, op).t.values[..PINNED][id] == s.t.values[..PINNED][id];
    } else {
      assert id !in s.t.pool;
    }
  }

  /** What a word decodes to is stable as long as its slot is kept. */
  lemma DecodingIsStable(s: System, word: Double, ops: seq<Op>)
    requires Inv(s) && LegalRun(s, ops)
    requires IsNaN(word) ==> word.lo == 0 || Kept(s, ops, word.lo)
    ensures Decoded(Run(s, ops).t, word) == Decoded(s.t, word)
  {
    var r := Run(s, ops);
    if IsNaN(word) {
      if word.lo == 0 {
        assert r.t.values[..PINNED][0] == s.t.values[..PINNED][0];
      } else {
        KeptSlotIsStable(s, ops, word.lo);
      }
    }
    SameDecoding(s.t, r.t, word);
  }

  lemma SameDecoding(t: Table, t': Table, word: Double)
    requires IsNaN(word) ==> word.lo < |t.values| && word.lo < |t'.values| && t.values[word.lo] == t'.values[word.lo]
    ensures Decoded(t, word) == Decoded(t', word)
  {
  }

  lemma WordSlot(t: Table, v: JsValue)
    requires Unboxed(v) || IdFor(t, v) < MAX_SLOTS
    ensures IsNaN(WordFor(t, v)) ==> WordFor(t, v).lo == if Unboxed(v) then 0 else IdFor(t, v)
  {
  }

  /** A reference handed to Go decodes to the same value under any later stores and
      finalizations, for as long as Go has not finalized it as often as it got it. */
  lemma ReferenceIsStable(s: System, v: JsValue, ops: seq<Op>)
    requires Inv(s) && Legal(s, Store(v))
    requires (StepKeepsInv(s, Store(v)); LegalRun(Step(s, Store(v)), ops))
    requires Unboxed(v) || Kept(Step(s, Store(v)), ops, IdFor(s.t, v))
    ensures (StepKeepsInv(s, Store(v)); Decoded(Run(Step(s, Store(v)), ops).t, WordFor(s.t, v)) == Canon(v))
  {
    StepKeepsInv(s, Store(v));
    LoadUndoesStore(s, v);
    WordSlot(s.t, v);
    DecodingIsStable(Step(s, Store(v)), WordFor(s.t, v), ops);
  }

  /** ... and no longer: with the last finalization the slot is cleared. */
  lemma LastFinalizeClears(s: System, id: nat)
    requires Inv(s) && PINNED <= id && s.held[id] == 1
    ensures var s' := Step(s, Finalize(id));
            id in s'.t.pool && s'.t.values[id] == Null && s.t.values[id] !in s'.t.ids
  {
    assert IsLive(s, id);
  }

  /** How often a run hands out `id`. */
  ghost function Given(s: System, ops: seq<Op>, id: nat): nat
    requires Inv(s) && LegalRun(s, ops)
    decreases |ops|
  {
    if ops == [] then 0 else
      StepKeepsInv(s, ops[0]);
      (if ops[0].Store? && !Unboxed(ops[0].v) && IdFor(s.t, ops[0].v) == id then 1 else 0)
      + Given(Step(s, ops[0]), ops[1..], id)
  }

  lemma {:induction false} HeldBalance(s: System, ops: seq<Op>, id: nat)
    requires Inv(s) && LegalRun(s, ops)
    ensures Run(s, ops).held[id] + Finalizes(ops, id) == s.held[id] + Given(s, ops, id)
    decreases |ops|
  {
    if ops != [] {
      StepKeepsInv(s, ops[0]);
      HeldBalance(Step(s, ops[0]), ops[1..], id);
    }
  }

  /** Conservation: each dynamic count is the number of references handed out less the
      number finalized. */
  lemma CountsAreConserved(ops: seq<Op>, id: nat)
    requires (StartInv(); LegalRun(START, ops)) && PINNED <= id < |Run(START, ops).t.values|
    ensures Run(START, ops).t.counts[id] == Finite(Given(START, ops, id) - Finalizes(ops, id))
  {
    StartInv();
    HeldBalance(START, ops, id);
  }

  // ---- Space ----

  ghost function LiveSlots(s: System): set<int> {
    set id | PINNED <= id < |s.t.values| && s.held[id] > 0
  }

  ghost function Peak(s: System, ops: seq<Op>): nat
    requires Inv(s) && LegalRun(s, ops)
    decreases |ops|
  {
    if ops == [] then |LiveSlots(s)| else
      StepKeepsInv(s, ops[0]);
      Max(|LiveSlots(s)|, Peak(Step(s, ops[0]), ops[1..]))
  }

  function Max(a: nat, b: nat): nat { if a < b then b else a }

  function Range(lo: int, hi: int): (r: set<int>)
    requires lo <= hi
    ensures |r| == hi - lo
    ensures forall id :: id in r <==> lo <= id < hi
    decreases hi - lo
  {
    if lo == hi then {} else Range(lo, hi - 1) + {hi - 1}
  }

  function Elements(pool: seq<nat>): (r: set<int>)
    ensures forall id :: id in r <==> id in pool
    ensures (forall i, j :: 0 <= i < j < |pool| ==> pool[i] != pool[j]) ==> |r| == |pool|
  {
    if pool == [] then {} else
      assert pool == pool[..|pool| - 1] + [pool[|pool| - 1]];
      Elements(pool[..|pool| - 1]) + {pool[|pool| - 1]}
  }

  lemma LiveAndFree(s: System)
    requires Inv(s)
    ensures |LiveSlots(s)| + |s.t.pool| == |s.t.values| - PINNED
  {
    var free := Elements(s.t.pool);
    assert forall id :: id in free <==> IsFree(s, id);
    assert Range(PINNED, |s.t.values|) == LiveSlots(s) + free;
    assert LiveSlots(s) !! free;
  }

  lemma {:induction false} TightSpaceFrom(s: System, ops: seq<Op>)
    requires Inv(s) && LegalRun(s, ops)
    ensures |Run(s, ops).t.values| - PINNED == Max(|s.t.values| - PINNED, Peak(s, ops))
    decreases |ops|
  {
    LiveAndFree(s);
    if ops != [] {
      var s' := Step(s, ops[0]);
      StepKeepsInv(s, ops[0]);
      LiveAndFree(s');
      TightSpaceFrom(s', ops[1..]);
    }
  }

  /** The table never grows needlessly: over any run its dynamic part is exactly as long as
      the largest number of dynamic values that were ever live together. */
  lemma TightSpace(ops: seq<Op>)
    requires (StartInv(); LegalRun(START, ops))
    ensures |Run(START, ops).t.values| - PINNED == Peak(START, ops)
  {
    StartInv();
    LiveAndFree(START);
    TightSpaceFrom(START, ops);
  }

  /** Releasing every dynamic reference restores the initial index. */
  lemma ReleasingAllRestoresIndex(s: System)
    requires Inv(s) && forall id <- s.held :: id < PINNED
    ensures s.t.ids == INITIAL_IDS
    ensures |s.t.pool| == |s.t.values| - PINNED
  {
    StartIndex();
    assert LiveSlots(s) == {};
    LiveAndFree(s);
    assert forall id :: 0 <= id < PINNED ==> s.t.values[id] == s.t.values[..PINNED][id] == INITIAL_VALUES[id];
    forall v ensures v in s.t.ids <==> v in INITIAL_IDS
             ensures v in s.t.ids ==> s.t.ids[v] == INITIAL_IDS[v] {
      if v in s.t.ids { assert !IsLive(s, s.t.ids[v]); }
      if v in INITIAL_IDS { assert s.t.values[INITIAL_IDS[v]] == v; }
    }
  }
}
