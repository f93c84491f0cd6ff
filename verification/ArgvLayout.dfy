/** How `run` (web/wasm_exec.js) passes command line and environment to a Go program:
    NUL-terminated strings from address 4096 on, each padded to a multiple of eight,
    then the table of their addresses. Strings are given as their UTF-8 bytes. */
module ArgvLayout {
  import opened Memory

  const ARGS_START: nat := 4096
  const WASM_MIN_DATA_ADDR: nat := 4096 + 8192

  // ---- The layout ----

  /** The least multiple of eight from `n` on. */
  function Align8(n: nat): (r: nat)
    ensures n <= r
    decreases (8 - n % 8) % 8
  {
    if n % 8 == 0 then n else Align8(n + 1)
  }

  lemma NextRemainder(n: nat)
    ensures (n + 1) % 8 == if n % 8 == 7 then 0 else n % 8 + 1
  {
  }

  lemma {:induction false} AlignByPadding(n: nat)
    ensures Align8(n) == if n % 8 != 0 then n + (8 - n % 8) else n
    decreases (8 - n % 8) % 8
  {
    if n % 8 != 0 {
      NextRemainder(n);
      AlignByPadding(n + 1);
    }
  }

  /** The address of string `i`, and for `i == |strs|` that of the pointer table. */
  function Start(strs: seq<Bytes>, i: nat): (r: nat)
    requires i <= |strs|
    ensures r >= ARGS_START
  {
    if i == 0 then ARGS_START else Align8(Start(strs, i - 1) + |strs[i - 1]| + 1)
  }

  function Starts(strs: seq<Bytes>, n: nat): (r: seq<nat>)
    requires n <= |strs|
    ensures |r| == n
  {
    if n == 0 then [] else Starts(strs, n - 1) + [Start(strs, n - 1)]
  }

  /** The pointer table: the arguments, a null, the environment, a null. */
  function Pointers(strs: seq<Bytes>, argc: nat): (r: seq<nat>)
    requires argc <= |strs|
    ensures |r| == |strs| + 2
  {
    var starts := Starts(strs, |strs|);
    starts[..argc] + [0] + starts[argc..] + [0]
  }

  function TableStart(strs: seq<Bytes>): nat { Start(strs, |strs|) }

  function LayoutEnd(strs: seq<Bytes>): nat { TableStart(strs) + 8 * (|strs| + 2) }

  predicate StringAt(m: seq<Byte>, p: nat, s: Bytes) {
    p + |s| + 1 <= |m| && m[p..p + |s| + 1] == s + [0]
  }

  predicate PointerAt(m: seq<Byte>, slot: nat, ptr: nat) {
    slot + 8 <= |m| && (ptr < TWO32 ==> WordAt(m, slot) == ptr) && WordAt(m, slot + 4) == 0
  }

  predicate StringsWritten(m: seq<Byte>, strs: seq<Bytes>, n: nat)
    requires n <= |strs|
  {
    forall i {:trigger StringAt(m, Start(strs, i), strs[i])} :: 0 <= i < n ==> StringAt(m, Start(strs, i), strs[i])
  }

  predicate TableAt(m: seq<Byte>, table: nat, ptrs: seq<nat>) {
    forall k :: 0 <= k < |ptrs| ==> PointerAt(m, table + 8 * k, ptrs[k])
  }

  lemma {:induction false} StartsGrow(strs: seq<Bytes>, i: nat, j: nat)
    requires i < j <= |strs|
    ensures Start(strs, i) + |strs[i]| + 1 <= Start(strs, j)
    decreases j
  {
    if i < j - 1 { StartsGrow(strs, i, j - 1); }
  }

  lemma StartsAreAligned(strs: seq<Bytes>, i: nat)
    requires i <= |strs|
    ensures Start(strs, i) % 8 == 0
  {
    if i > 0 { AlignByPadding(Start(strs, i - 1) + |strs[i - 1]| + 1); }
  }

  /** The first string starts at 4096, and each next one, or the table, at the first multiple of eight
      after the NUL of the one before. */
  lemma StartsAreTight(strs: seq<Bytes>, i: nat)
    requires i < |strs|
    ensures Start(strs, 0) == 4096
    ensures var after := Start(strs, i) + |strs[i]| + 1;
            after <= Start(strs, i + 1) < after + 8 && Start(strs, i + 1) % 8 == 0
  {
    AlignByPadding(Start(strs, i) + |strs[i]| + 1);
    StartsAreAligned(strs, i + 1);
  }

  /** String regions and table are pairwise disjoint, 8-aligned and lie between 4096 and
      the end of the layout. */
  lemma RegionsAreDisjoint(strs: seq<Bytes>, i: nat, j: nat)
    requires i < j < |strs|
    ensures Start(strs, i) % 8 == 0 && ARGS_START <= Start(strs, i)
    ensures Start(strs, i) + |strs[i]| + 1 <= Start(strs, j)
    ensures Start(strs, j) + |strs[j]| + 1 <= TableStart(strs) < LayoutEnd(strs)
    ensures TableStart(strs) % 8 == 0
  {
    StartsGrow(strs, i, j);
    StartsGrow(strs, j, |strs|);
    StartsAreAligned(strs, i);
    StartsAreAligned(strs, |strs|);
  }

  // ---- Writing ----

  datatype Outcome = Ok(argc: nat, argv: nat) | RangeError | LimitError

  /** What `run` does with a memory of `size` bytes: writing past the end of the buffer
      throws at once, and the length of the layout is compared with the limit last. */
  function Expected(strs: seq<Bytes>, argc: nat, size: nat): Outcome {
    if LayoutEnd(strs) > size then RangeError
    else if LayoutEnd(strs) >= WASM_MIN_DATA_ADDR then LimitError
    else Ok(argc, TableStart(strs))
  }

  method CopyBytes(mem: array<Byte>, offset: nat, bytes: Bytes)
    requires offset + |bytes| <= mem.Length
    modifies mem
    ensures mem[..] == Patch(old(mem[..]), offset, bytes)
  {
    for i := 0 to |bytes|
      invariant forall j :: 0 <= j < i ==> mem[offset + j] == bytes[j]
      invariant forall j :: 0 <= j < mem.Length && !(offset <= j < offset + i) ==> mem[j] == old(mem[j])
    {
      mem[offset + i] := bytes[i];
    }
    ghost var want := Patch(old(mem[..]), offset, bytes);
    forall j | 0 <= j < mem.Length ensures mem[j] == want[j] {
      if offset <= j < offset + |bytes| {
        assert want[j] == want[offset..offset + |bytes|][j - offset];
        assert mem[offset + (j - offset)] == bytes[j - offset];
      }
    }
  }

  lemma PatchKeeps(m: seq<Byte>, addr: nat, bytes: Bytes, lo: nat, hi: nat)
    requires addr + |bytes| <= |m| && lo <= hi <= |m|
    requires hi <= addr || addr + |bytes| <= lo
    ensures Patch(m, addr, bytes)[lo..hi] == m[lo..hi]
  {
  }

  lemma StringSurvives(m: seq<Byte>, p: nat, s: Bytes, addr: nat, bytes: Bytes)
    requires StringAt(m, p, s) && p + |s| + 1 <= addr && addr + |bytes| <= |m|
    ensures StringAt(Patch(m, addr, bytes), p, s)
  {
    PatchKeeps(m, addr, bytes, p, p + |s| + 1);
  }

  lemma StringsSurvive(m: seq<Byte>, strs: seq<Bytes>, n: nat, addr: nat, bytes: Bytes)
    requires n <= |strs| && StringsWritten(m, strs, n)
    requires Start(strs, n) <= addr && addr + |bytes| <= |m|
    ensures StringsWritten(Patch(m, addr, bytes), strs, n)
  {
    forall i | 0 <= i < n ensures StringAt(Patch(m, addr, bytes), Start(strs, i), strs[i]) {
      assert StringAt(m, Start(strs, i), strs[i]);
      StartsGrow(strs, i, n);
      StringSurvives(m, Start(strs, i), strs[i], addr, bytes);
    }
  }

  lemma StringsBelow(m: seq<Byte>, m': seq<Byte>, strs: seq<Bytes>)
    requires StringsWritten(m, strs, |strs|) && |m'| == |m|
    requires forall i :: 0 <= i < |m| && i < TableStart(strs) ==> m'[i] == m[i]
    ensures StringsWritten(m', strs, |strs|)
  {
    forall i | 0 <= i < |strs| ensures StringAt(m', Start(strs, i), strs[i]) {
      assert StringAt(m, Start(strs, i), strs[i]);
      StartsGrow(strs, i, |strs|);
      var p, q := Start(strs, i), Start(strs, i) + |strs[i]| + 1;
      assert m'[p..q] == m[p..q];
    }
  }

  lemma StringAppears(m: seq<Byte>, p: nat, s: Bytes)
    requires p + |s| + 1 <= |m|
    ensures StringAt(Patch(m, p, s + [0]), p, s)
  {
  }

  /** `strPtr`: writes one string and its NUL, and moves on to the next multiple of eight. */
  method StrPtr(mem: array<Byte>, str: Bytes, start: nat) returns (ok: bool, offset: nat)
    modifies mem
    ensures ok <==> start + |str| + 1 <= mem.Length
    ensures ok ==> offset == Align8(start + |str| + 1) && mem[..] == Patch(old(mem[..]), start, str + [0])
    ensures ok ==> offset % 8 == 0 && start + |str| + 1 <= offset < start + |str| + 9
    ensures !ok ==> mem[..] == old(mem[..])
  {
    offset := start;
    var bytes: Bytes := str + [0];
    if offset + |bytes| > mem.Length {
      return false, offset;
    }
    CopyBytes(mem, offset, bytes);
    offset := offset + |bytes|;
    AlignByPadding(offset);
    if offset % 8 != 0 {
      offset := offset + (8 - offset % 8);
    }
    ok := true;
  }

  lemma OneMoreString(m: seq<Byte>, strs: seq<Bytes>, i: nat)
    requires i < |strs| && StringsWritten(m, strs, i)
    requires ARGS_START <= Start(strs, i) && Start(strs, i) + |strs[i]| + 1 <= |m|
    ensures var m' := Patch(m, Start(strs, i), strs[i] + [0]);
            && StringsWritten(m', strs, i + 1)
            && m'[..ARGS_START] == m[..ARGS_START]
  {
    StringsSurvive(m, strs, i, Start(strs, i), strs[i] + [0]);
    StringAppears(m, Start(strs, i), strs[i]);
    PatchKeeps(m, Start(strs, i), strs[i] + [0], 0, ARGS_START);
  }

  method WriteStrings(mem: array<Byte>, strs: seq<Bytes>) returns (ok: bool, ptrs: seq<nat>, offset: nat)
    modifies mem
    ensures !ok ==> TableStart(strs) > mem.Length
    ensures ok ==> offset == TableStart(strs) && StringsWritten(mem[..], strs, |strs|)
    ensures ok ==> ptrs == Starts(strs, |strs|)
    ensures mem.Length >= ARGS_START ==> mem[..ARGS_START] == old(mem[..ARGS_START])
  {
    offset, ptrs := ARGS_START, [];
    for i := 0 to |strs|
      invariant offset == Start(strs, i) && ptrs == Starts(strs, i)
      invariant StringsWritten(mem[..], strs, i)
      invariant mem.Length >= ARGS_START ==> mem[..ARGS_START] == old(mem[..ARGS_START])
    {
      assert Starts(strs, i + 1) == Starts(strs, i) + [Start(strs, i)];
      ptrs := ptrs + [offset];
      ghost var m := mem[..];
      ok, offset := StrPtr(mem, strs[i], offset);
      if !ok {
        StartsGrow(strs, i, |strs|);
        return;
      }
      OneMoreString(m, strs, i);
    }
    ok := true;
  }

  lemma PointerSurvives(m: seq<Byte>, slot: nat, ptr: nat, addr: nat, bytes: Bytes)
    requires PointerAt(m, slot, ptr) && slot + 8 <= addr && addr + |bytes| <= |m|
    ensures PointerAt(Patch(m, addr, bytes), slot, ptr)
  {
    PatchKeeps(m, addr, bytes, slot, slot + 4);
    PatchKeeps(m, addr, bytes, slot + 4, slot + 8);
  }

  method WriteEntry(mem: array<Byte>, offset: nat, ptr: nat) returns (ghost bytes: seq<Byte>)
    requires offset + 8 <= mem.Length
    modifies mem
    ensures |bytes| == 8 && mem[..] == Patch(old(mem[..]), offset, bytes)
    ensures PointerAt(mem[..], offset, ptr)
  {
    bytes := U32Bytes(ToUint32(ptr)) + U32Bytes(ToUint32(0));
    PairAt(mem[..], offset, ToUint32(ptr), ToUint32(0));
    SetWords(mem, offset, ptr, 0);
  }

  lemma OneMorePointer(m: seq<Byte>, table: nat, ptrs: seq<nat>, k: nat, bytes: Bytes)
    requires k < |ptrs| && TableAt(m, table, ptrs[..k]) && table + 8 * k + |bytes| <= |m|
    requires PointerAt(Patch(m, table + 8 * k, bytes), table + 8 * k, ptrs[k])
    ensures TableAt(Patch(m, table + 8 * k, bytes), table, ptrs[..k + 1])
  {
    forall j | 0 <= j < k ensures PointerAt(Patch(m, table + 8 * k, bytes), table + 8 * j, ptrs[j]) {
      assert ptrs[..k][j] == ptrs[j];
      PointerSurvives(m, table + 8 * j, ptrs[j], table + 8 * k, bytes);
    }
  }

  method WriteTable(mem: array<Byte>, table: nat, ptrs: seq<nat>) returns (ok: bool, offset: nat)
    requires |ptrs| > 0
    modifies mem
    ensures ok <==> table + 8 * |ptrs| <= mem.Length
    ensures ok ==> offset == table + 8 * |ptrs| && TableAt(mem[..], table, ptrs)
    ensures forall i :: 0 <= i < mem.Length && i < table ==> mem[i] == old(mem[i])
  {
    offset := table;
    for k := 0 to |ptrs|
      invariant offset == table + 8 * k && (k > 0 ==> offset <= mem.Length)
      invariant TableAt(mem[..], table, ptrs[..k])
      invariant forall i :: 0 <= i < mem.Length && i < table ==> mem[i] == old(mem[i])
    {
      if offset + 8 > mem.Length {
        return false, offset;
      }
      ghost var m := mem[..];
      ghost var bytes := WriteEntry(mem, offset, ptrs[k]);
      OneMorePointer(m, table, ptrs, k, bytes);
      offset := offset + 8;
    }
    assert ptrs[..|ptrs|] == ptrs;
    ok := true;
  }

  /** The argument-passing part of `run`; `env` holds the `key=value` strings in the order
      of the sorted keys. */
  method PassArguments(mem: array<Byte>, argv: seq<Bytes>, env: seq<Bytes>) returns (r: Outcome)
    modifies mem
    ensures r == Expected(argv + env, |argv|, mem.Length)
    ensures var end := TableStart(argv + env) + 8 * (|argv| + |env| + 2);
            r == if end > mem.Length then RangeError else if end >= 12288 then LimitError
                 else Ok(|argv|, TableStart(argv + env))
    ensures r.Ok? ==> StringsWritten(mem[..], argv + env, |argv + env|)
    ensures r.Ok? ==> TableAt(mem[..], TableStart(argv + env), Pointers(argv + env, |argv|))
    ensures mem.Length >= ARGS_START ==> mem[..ARGS_START] == old(mem[..ARGS_START])
  {
    var ok, ptrs, offset := WriteStrings(mem, argv + env);
    if !ok {
      return RangeError;
    }
    var argvPtrs := ptrs[..|argv|] + [0] + ptrs[|argv|..] + [0];
    var table := offset;
    ghost var m := mem[..];
    ok, offset := WriteTable(mem, table, argvPtrs);
    if !ok {
      return RangeError;
    }
    StringsBelow(m, mem[..], argv + env);
    if offset >= WASM_MIN_DATA_ADDR {
      return LimitError;
    }
    r := Ok(|argv|, table);
  }

  // ---- Reading back ----

  lemma {:induction false} StartsAt(strs: seq<Bytes>, n: nat, i: nat)
    requires i < n <= |strs|
    ensures Starts(strs, n)[i] == Start(strs, i)
  {
    if i < n - 1 { StartsAt(strs, n - 1, i); }
  }

  /** The bytes from `p` up to the next NUL. */
  function CString(m: seq<Byte>, p: nat): Bytes
    decreases |m| - p
  {
    if p >= |m| || m[p] == 0 then [] else [m[p]] + CString(m, p + 1)
  }

  function UpToNul(s: Bytes): Bytes {
    if s == [] || s[0] == 0 then [] else [s[0]] + UpToNul(s[1..])
  }

  /** The strings of the first `n` entries of a pointer table. */
  function ReadEntries(m: seq<Byte>, table: nat, n: nat): seq<Bytes>
    requires table + 8 * n <= |m|
    decreases n
  {
    if n == 0 then [] else [CString(m, WordAt(m, table))] + ReadEntries(m, table + 8, n - 1)
  }

  /** The strings of a table that ends with a null pointer. */
  function ReadToNull(m: seq<Byte>, table: nat): seq<Bytes>
    decreases |m| - table
  {
    if table + 8 > |m| || WordAt(m, table) == 0 then []
    else [CString(m, WordAt(m, table))] + ReadToNull(m, table + 8)
  }

  function Cut(strs: seq<Bytes>): (r: seq<Bytes>)
    ensures |r| == |strs|
    ensures forall i :: 0 <= i < |strs| ==> r[i] == UpToNul(strs[i])
  {
    if strs == [] then [] else [UpToNul(strs[0])] + Cut(strs[1..])
  }

  predicate NulFree(s: Bytes) { 0 !in s }

  lemma {:induction false} CutIsIdentity(s: Bytes)
    ensures UpToNul(s) == s <==> NulFree(s)
  {
    if s != [] { CutIsIdentity(s[1..]); }
  }

  lemma {:induction false} CStringAt(m: seq<Byte>, p: nat, s: Bytes)
    requires p + |s| + 1 <= |m| && m[p..p + |s| + 1] == s + [0]
    ensures CString(m, p) == UpToNul(s)
    decreases |s|
  {
    assert m[p] == (s + [0])[0];
    if s != [] && s[0] != 0 {
      assert m[p + 1..p + 1 + |s[1..]| + 1] == m[p..p + |s| + 1][1..] == s[1..] + [0];
      CStringAt(m, p + 1, s[1..]);
    }
  }

  /** Entries `ptrs` of a table point at `strs`. */
  predicate PointsAt(m: seq<Byte>, ptrs: seq<nat>, strs: seq<Bytes>) {
    |ptrs| == |strs| && forall i :: 0 <= i < |strs| ==> 0 < ptrs[i] < TWO32 && StringAt(m, ptrs[i], strs[i])
  }

  lemma TableTail(m: seq<Byte>, table: nat, ptrs: seq<nat>, n: nat)
    requires TableAt(m, table, ptrs) && n <= |ptrs|
    ensures TableAt(m, table + 8 * n, ptrs[n..])
  {
    forall k | 0 <= k < |ptrs| - n ensures PointerAt(m, table + 8 * n + 8 * k, ptrs[n..][k]) {
      assert PointerAt(m, table + 8 * (n + k), ptrs[n + k]);
    }
  }

  lemma {:induction false} EntriesAreRead(m: seq<Byte>, table: nat, ptrs: seq<nat>, strs: seq<Bytes>)
    requires TableAt(m, table, ptrs) && PointsAt(m, ptrs, strs) && table <= |m|
    ensures table + 8 * |strs| <= |m|
    ensures ReadEntries(m, table, |strs|) == Cut(strs)
    decreases |strs|
  {
    if strs != [] {
      assert PointerAt(m, table, ptrs[0]);
      CStringAt(m, ptrs[0], strs[0]);
      TableTail(m, table, ptrs, 1);
      EntriesAreRead(m, table + 8, ptrs[1..], strs[1..]);
    }
  }

  lemma {:induction false} EntriesAreReadToNull(m: seq<Byte>, table: nat, ptrs: seq<nat>, strs: seq<Bytes>)
    requires TableAt(m, table, ptrs + [0]) && PointsAt(m, ptrs, strs)
    ensures ReadToNull(m, table) == Cut(strs)
    decreases |strs|
  {
    assert PointerAt(m, table, (ptrs + [0])[0]);
    if strs != [] {
      CStringAt(m, ptrs[0], strs[0]);
      TableTail(m, table, ptrs + [0], 1);
      assert (ptrs + [0])[1..] == ptrs[1..] + [0];
      EntriesAreReadToNull(m, table + 8, ptrs[1..], strs[1..]);
    }
  }

  /** Everything written, within the limit. */
  predicate Laid(m: seq<Byte>, argv: seq<Bytes>, env: seq<Bytes>) {
    var strs := argv + env;
    && LayoutEnd(strs) < WASM_MIN_DATA_ADDR
    && StringsWritten(m, strs, |strs|)
    && TableAt(m, TableStart(strs), Pointers(strs, |argv|))
  }

  lemma StartsPointAt(m: seq<Byte>, strs: seq<Bytes>)
    requires LayoutEnd(strs) < WASM_MIN_DATA_ADDR && StringsWritten(m, strs, |strs|)
    ensures PointsAt(m, Starts(strs, |strs|), strs)
  {
    forall i | 0 <= i < |strs|
      ensures var p := Starts(strs, |strs|)[i]; 0 < p < TWO32 && StringAt(m, p, strs[i])
    {
      StartsAt(strs, |strs|, i);
      StartsGrow(strs, i, |strs|);
      assert StringAt(m, Start(strs, i), strs[i]);
    }
  }

  lemma PointsAtSplit(m: seq<Byte>, ptrs: seq<nat>, argv: seq<Bytes>, env: seq<Bytes>)
    requires PointsAt(m, ptrs, argv + env)
    ensures PointsAt(m, ptrs[..|argv|], argv) && PointsAt(m, ptrs[|argv|..], env)
  {
    assert forall i :: 0 <= i < |argv| ==> (argv + env)[i] == argv[i];
    assert forall i :: 0 <= i < |env| ==> (argv + env)[|argv| + i] == env[i] && ptrs[|argv|..][i] == ptrs[|argv| + i];
  }

  lemma TableSplit(m: seq<Byte>, t: nat, a: seq<nat>, e: seq<nat>)
    requires TableAt(m, t, a + [0] + e + [0])
    ensures TableAt(m, t, a) && PointerAt(m, t + 8 * |a|, 0) && TableAt(m, t + 8 * |a| + 8, e + [0])
  {
    var ptrs := a + [0] + e + [0];
    assert PointerAt(m, t + 8 * |a|, ptrs[|a|]);
    forall i | 0 <= i < |a| ensures PointerAt(m, t + 8 * i, a[i]) {
      assert ptrs[i] == a[i];
    }
    TableTail(m, t, ptrs, |a| + 1);
    assert ptrs[|a| + 1..] == e + [0];
    assert t + 8 * (|a| + 1) == t + 8 * |a| + 8;
  }

  /** What a Go program started with `argc` arguments and the table at `t` finds. */
  predicate Finds(m: seq<Byte>, t: nat, args: seq<Bytes>, env: seq<Bytes>) {
    && PointerAt(m, t + 8 * |args|, 0)
    && ReadEntries(m, t, |args|) == args
    && ReadToNull(m, t + 8 * |args| + 8) == env
  }

  lemma ArgumentsAreReadBack(m: seq<Byte>, t: nat, a: seq<nat>, e: seq<nat>, argv: seq<Bytes>)
    requires TableAt(m, t, a + [0] + e + [0]) && PointsAt(m, a, argv)
    ensures |Cut(argv)| == |a| && PointerAt(m, t + 8 * |a|, 0) && ReadEntries(m, t, |a|) == Cut(argv)
  {
    TableSplit(m, t, a, e);
    EntriesAreRead(m, t, a, argv);
  }

  lemma EnvironmentIsReadBack(m: seq<Byte>, t: nat, a: seq<nat>, e: seq<nat>, env: seq<Bytes>)
    requires TableAt(m, t, a + [0] + e + [0]) && PointsAt(m, e, env)
    ensures ReadToNull(m, t + 8 * |a| + 8) == Cut(env)
  {
    TableSplit(m, t, a, e);
    EntriesAreReadToNull(m, t + 8 * |a| + 8, e, env);
  }

  lemma TableIsReadBack(m: seq<Byte>, t: nat, a: seq<nat>, e: seq<nat>, argv: seq<Bytes>, env: seq<Bytes>)
    requires TableAt(m, t, a + [0] + e + [0])
    requires PointsAt(m, a, argv) && PointsAt(m, e, env)
    ensures Finds(m, t, Cut(argv), Cut(env))
  {
    ArgumentsAreReadBack(m, t, a, e, argv);
    EnvironmentIsReadBack(m, t, a, e, env);
  }

  /** A slot of the table and what its address leads to. */
  lemma SlotLeadsTo(m: seq<Byte>, argv: seq<Bytes>, env: seq<Bytes>, slot: nat, j: nat)
    requires Laid(m, argv, env) && j < |argv| + |env|
    requires slot < |argv| + |env| + 2 && Pointers(argv + env, |argv|)[slot] == Starts(argv + env, |argv + env|)[j]
    ensures TableStart(argv + env) + 8 * slot + 8 <= |m|
    ensures StringAt(m, WordAt(m, TableStart(argv + env) + 8 * slot), (argv + env)[j])
  {
    var strs := argv + env;
    StartsPointAt(m, strs);
    assert PointerAt(m, TableStart(strs) + 8 * slot, Pointers(strs, |argv|)[slot]);
  }

  /** Entry by entry: argument `i` with its NUL is at the address in slot `i` of the table, ... */
  lemma ArgumentSlots(m: seq<Byte>, argv: seq<Bytes>, env: seq<Bytes>, i: nat)
    requires Laid(m, argv, env) && i < |argv|
    ensures TableStart(argv + env) + 8 * i + 8 <= |m|
    ensures var p := WordAt(m, TableStart(argv + env) + 8 * i);
            p + |argv[i]| + 1 <= |m| && m[p..p + |argv[i]| + 1] == argv[i] + [0]
  {
    SlotLeadsTo(m, argv, env, i, i);
    assert (argv + env)[i] == argv[i];
  }

  /** ... variable `i` at that in the `i`-th slot after the null that ends the arguments, ... */
  lemma VariableSlots(m: seq<Byte>, argv: seq<Bytes>, env: seq<Bytes>, i: nat)
    requires Laid(m, argv, env) && i < |env|
    ensures TableStart(argv + env) + 8 * (|argv| + 1 + i) + 8 <= |m|
    ensures var p := WordAt(m, TableStart(argv + env) + 8 * (|argv| + 1 + i));
            p + |env[i]| + 1 <= |m| && m[p..p + |env[i]| + 1] == env[i] + [0]
  {
    var starts := Starts(argv + env, |argv + env|);
    assert starts[|argv|..][i] == starts[|argv| + i];
    SlotLeadsTo(m, argv, env, |argv| + 1 + i, |argv| + i);
    assert (argv + env)[|argv| + i] == env[i];
  }

  /** ... and both lists end with a null. */
  lemma NullSlots(m: seq<Byte>, argv: seq<Bytes>, env: seq<Bytes>)
    requires Laid(m, argv, env)
    ensures TableStart(argv + env) + 8 * (|argv| + |env| + 2) <= |m|
    ensures WordAt(m, TableStart(argv + env) + 8 * |argv|) == 0
    ensures WordAt(m, TableStart(argv + env) + 8 * (|argv| + |env| + 1)) == 0
  {
    var ptrs, t := Pointers(argv + env, |argv|), TableStart(argv + env);
    assert PointerAt(m, t + 8 * |argv|, ptrs[|argv|]) && ptrs[|argv|] == 0;
    assert PointerAt(m, t + 8 * (|argv| + |env| + 1), ptrs[|argv| + |env| + 1]) && ptrs[|argv| + |env| + 1] == 0;
  }

  /** A Go program started on this memory finds its arguments and environment, each string
      up to its first NUL... */
  lemma LayoutIsReadBack(m: seq<Byte>, argv: seq<Bytes>, env: seq<Bytes>)
    requires Laid(m, argv, env)
    ensures Finds(m, TableStart(argv + env), Cut(argv), Cut(env))
  {
    var starts := Starts(argv + env, |argv + env|);
    StartsPointAt(m, argv + env);
    PointsAtSplit(m, starts, argv, env);
    TableIsReadBack(m, TableStart(argv + env), starts[..|argv|], starts[|argv|..], argv, env);
  }

  /** ... so it finds exactly what was passed if and only if no string contains a NUL. */
  lemma LayoutRoundTrip(m: seq<Byte>, argv: seq<Bytes>, env: seq<Bytes>)
    requires Laid(m, argv, env)
    ensures Finds(m, TableStart(argv + env), argv, env) <==> (forall s <- argv + env :: NulFree(s))
  {
    LayoutIsReadBack(m, argv, env);
    FindsOne(m, TableStart(argv + env), argv, env, Cut(argv), Cut(env));
    CutAll(argv);
    CutAll(env);
    assert forall s :: s in argv + env <==> s in argv || s in env;
  }

  lemma FindsOne(m: seq<Byte>, t: nat, args: seq<Bytes>, env: seq<Bytes>, args': seq<Bytes>, env': seq<Bytes>)
    requires |args| == |args'| && Finds(m, t, args', env')
    ensures Finds(m, t, args, env) <==> args == args' && env == env'
  {
  }

  lemma CutAll(strs: seq<Bytes>)
    ensures Cut(strs) == strs <==> (forall s <- strs :: NulFree(s))
  {
    forall i | 0 <= i < |strs| ensures UpToNul(strs[i]) == strs[i] <==> NulFree(strs[i]) {
      CutIsIdentity(strs[i]);
    }
    if Cut(strs) == strs {
      forall s | s in strs ensures NulFree(s) {
        var i :| 0 <= i < |strs| && strs[i] == s;
        assert Cut(strs)[i] == strs[i];
      }
    }
  }
}
