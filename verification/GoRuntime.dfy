/** The object that `web/wasm_exec.js` builds for a running Go program: its memory and
    its table of references, updated in place. Each method is tied to the table on
    values of module RefTable, where the properties of whole runs are proved. */
module GoRuntime {
  import opened Memory
  import opened RefTable

  /** What is in memory once the word for `v` has been written. */
  lemma StoredWord(s: System, v: JsValue, m: seq<Byte>, addr: nat)
    requires Inv(s) && Legal(s, Store(v)) && addr + 8 <= |m|
    ensures Inv(Step(s, Store(v)))
    ensures var m', id := Patch(m, addr, DoubleBytes(WordFor(s.t, v))), IdFor(s.t, v);
            && Decoded(Step(s, Store(v)).t, DoubleAt(m', addr)) == Canon(v)
            && IsWordOf(Double(WordAt(m', addr + 4), WordAt(m', addr)), v, id)
  {
    StepKeepsInv(s, Store(v));
    LoadUndoesStore(s, v);
    WordsByKind(s, v);
    DoubleReadBack(m, addr, WordFor(s.t, v));
  }

  class Go {
    const mem: array<Byte>
    var values: seq<JsValue>
    var goRefCounts: seq<Count>
    var ids: map<JsValue, nat>
    var idPool: seq<nat>
    ghost var held: multiset<nat>  // the references that Go holds

    ghost function State(): System
      reads this
    {
      System(Table(values, goRefCounts, ids, idPool), held)
    }

    ghost predicate Valid()
      reads this
    {
      Inv(State())
    }

    /** The table set-up at the start of `run`. */
    constructor (mem: array<Byte>)
      ensures Valid() && State() == START && this.mem == mem
    {
      this.mem := mem;
      values := [NAN, ZERO, Null, Boolean(true), Boolean(false), GLOBAL_THIS, GO_THIS];
      goRefCounts := seq(7, _ => Infinite);
      ids := map[ZERO := 1, Null := 2, Boolean(true) := 3, Boolean(false) := 4, GLOBAL_THIS := 5, GO_THIS := 6];
      idPool := [];
      held := multiset{};
      new;
      StartInv();
      assert goRefCounts == INITIAL.counts;
    }

    method StoreValue(addr: nat, v: JsValue)
      requires Valid() && addr + 8 <= mem.Length && Legal(State(), Store(v))
      modifies this, mem
      ensures Valid() && State() == Step(old(State()), Store(v))
      ensures mem[..] == Patch(old(mem[..]), addr, DoubleBytes(WordFor(old(State()).t, v)))
      ensures Decoded(State().t, DoubleAt(mem[..], addr)) == Canon(v)
      ensures IsWordOf(Double(WordAt(mem[..], addr + 4), WordAt(mem[..], addr)), v, IdFor(old(State()).t, v))
    {
      StoredWord(State(), v, mem[..], addr);
      if Unboxed(v) {
        StoreUnboxed(addr, v);
      } else {
        StoreBoxed(addr, v);
      }
    }

    /** Every other value, under a reference. */
    method StoreBoxed(addr: nat, v: JsValue)
      requires addr + 8 <= mem.Length && !Unboxed(v) && WellSized(State().t)
      modifies this, mem
      ensures State() == System(Interned(old(State()).t, v), old(held) + multiset{IdFor(old(State()).t, v)})
      ensures mem[..] == Patch(old(mem[..]), addr, DoubleBytes(WordFor(old(State()).t, v)))
    {
      var id := TakeSlot(v);
      var typeFlag := TypeFlag(v);
      SetWords(mem, addr, id, NAN_HEAD + typeFlag);
    }

    /** The values that need no reference: numbers other than zero, and undefined. */
    method StoreUnboxed(addr: nat, v: JsValue)
      requires addr + 8 <= mem.Length && Unboxed(v)
      modifies mem
      ensures mem[..] == Patch(old(mem[..]), addr, DoubleBytes(WordFor(State().t, v)))
    {
      if v.Number? && !IsZero(v.d) {
        if IsNaN(v.d) {
          SetWords(mem, addr, 0, NAN_HEAD);
        } else {
          SetFloat64(mem, addr, v.d);
        }
        return;
      }
      SetFloat64(mem, addr, Double(0, 0));
    }

    /** Files `v`, under its own id, a recycled one or a new one, and counts the reference. */
    method TakeSlot(v: JsValue) returns (id: nat)
      requires WellSized(State().t)
      modifies this
      ensures State().t == Interned(old(State()).t, v)
      ensures id == IdFor(old(State()).t, v) && held == old(held) + multiset{id}
      ensures Canon(v) in old(ids) ==> id == old(ids[Canon(v)]) && values == old(values) && idPool == old(idPool)
      ensures Canon(v) !in old(ids) && old(idPool) != [] ==>
                old(idPool) == idPool + [id] && values == old(values)[id := v] && goRefCounts[id] == Finite(1)
      ensures Canon(v) !in old(ids) && old(idPool) == [] ==>
                id == |old(values)| && idPool == [] && values == old(values) + [v] && goRefCounts[id] == Finite(1)
    {
      var key := Canon(v);
      if key in ids {
        id := ids[key];
      } else {
        if idPool != [] {
          id := idPool[|idPool| - 1];
          idPool := idPool[..|idPool| - 1];
          values := values[id := v];
          goRefCounts := goRefCounts[id := Finite(0)];
        } else {
          id := |values|;
          values := values + [v];
          goRefCounts := goRefCounts + [Finite(0)];
        }
        ids := ids[key := id];
      }
      goRefCounts := goRefCounts[id := Bump(goRefCounts[id], 1)];
      held := held + multiset{id};
    }

    method LoadValue(addr: nat) returns (v: JsValue)
      requires addr + 8 <= mem.Length
      ensures v == Decoded(State().t, DoubleAt(mem[..], addr))
    {
      var f := DoubleAt(mem[..], addr);
      if IsZero(f) {
        return Undefined;
      }
      if !IsNaN(f) {
        return Number(f);
      }
      var id := WordAt(mem[..], addr);
      v := if id < |values| then values[id] else Undefined;
    }

    method FinalizeRef(sp: nat)
      requires Valid() && sp + 12 <= mem.Length
      requires WordAt(mem[..], sp + 8) in held
      modifies this
      ensures Valid() && State() == Step(old(State()), Finalize(WordAt(mem[..], sp + 8)))
    {
      var id: nat := WordAt(mem[..], sp + 8);
      StepKeepsInv(State(), Finalize(id));
      goRefCounts := goRefCounts[id := Bump(goRefCounts[id], -1)];
      held := held - multiset{id};
      if goRefCounts[id] == Finite(0) {
        var v := values[id];
        values := values[id := Null];
        ids := ids - {Canon(v)};
        idPool := idPool + [id];
      }
    }
  }
}
