/** The strings that `run` (web/wasm_exec.js) passes on, at the level of JavaScript: command line
    and environment as sequences of UTF-16 units, the variables sorted by key, each string in
    UTF-8 as TextEncoder gives it. */
module Environment {
  import opened Memory
  import opened Ordering
  import opened ArgvLayout

  type Unit = u: int | 0 <= u < 0x1_0000
  type JsString = seq<Unit>
  type CodePoint = c: int | 0 <= c < 0x11_0000

  const NUL: Unit := 0
  const EQUALS: Unit := 61
  const REPLACEMENT: CodePoint := 0xFFFD

  // ---- TextEncoder ----

  predicate High(u: Unit) { 0xD800 <= u < 0xDC00 }
  predicate Low(u: Unit) { 0xDC00 <= u < 0xE000 }

  function Joined(h: Unit, l: Unit): CodePoint
    requires High(h) && Low(l)
  {
    0x1_0000 + (h - 0xD800) * 0x400 + (l - 0xDC00)
  }

  /** Surrogate pairs are joined, lone surrogates replaced. */
  function CodePoints(s: JsString): seq<CodePoint> {
    if s == [] then []
    else if High(s[0]) && |s| > 1 && Low(s[1]) then [Joined(s[0], s[1])] + CodePoints(s[2..])
    else if High(s[0]) || Low(s[0]) then [REPLACEMENT] + CodePoints(s[1..])
    else [s[0]] + CodePoints(s[1..])
  }

  function Encoded(c: CodePoint): Bytes {
    if c < 0x80 then [c]
    else if c < 0x800 then [0xC0 + c / 0x40, 0x80 + c % 0x40]
    else if c < 0x1_0000 then [0xE0 + c / 0x1000, 0x80 + c / 0x40 % 0x40, 0x80 + c % 0x40]
    else [0xF0 + c / 0x4_0000, 0x80 + c / 0x1000 % 0x40, 0x80 + c / 0x40 % 0x40, 0x80 + c % 0x40]
  }

  function EncodedAll(cs: seq<CodePoint>): Bytes {
    if cs == [] then [] else Encoded(cs[0]) + EncodedAll(cs[1..])
  }

  function Utf8(s: JsString): Bytes { EncodedAll(CodePoints(s)) }

  /** A surrogate pair and its code point determine each other. */
  lemma PairIsCodePoint(h: Unit, l: Unit)
    requires 0xD800 <= h <= 0xDBFF && 0xDC00 <= l <= 0xDFFF
    ensures CodePoints([h, l]) == [(h - 0xD800) * 0x400 + (l - 0xDC00) + 0x1_0000]
    ensures var c := CodePoints([h, l])[0];
            h == 0xD800 + (c - 0x1_0000) / 0x400 && l == 0xDC00 + (c - 0x1_0000) % 0x400
  {
    assert [h, l][2..] == [];
    assert CodePoints([]) == [];
  }

  /** Of all other units each stands for itself, or for U+FFFD when it is half of a pair. */
  lemma {:induction false} UnpairedUnits(s: JsString)
    requires forall i :: 0 <= i < |s| - 1 ==> !(0xD800 <= s[i] <= 0xDBFF && 0xDC00 <= s[i + 1] <= 0xDFFF)
    ensures |CodePoints(s)| == |s|
    ensures forall i :: 0 <= i < |s| ==> CodePoints(s)[i] == if 0xD800 <= s[i] <= 0xDFFF then 0xFFFD else s[i]
  {
    if s != [] { UnpairedUnits(s[1..]); }
  }

  /** UTF-8 as section 3 of RFC 3629 gives it: how many bytes, their marks, and the bits they carry. */
  lemma EncodedIsUtf8(c: CodePoint)
    ensures var b := Encoded(c);
            if c < 0x80 then b == [c]
            else if c < 0x800 then
              |b| == 2 && 0xC2 <= b[0] < 0xE0 && 0x80 <= b[1] < 0xC0
              && (b[0] as int - 0xC0) * 0x40 + (b[1] as int - 0x80) == c
            else if c < 0x1_0000 then
              |b| == 3 && 0xE0 <= b[0] < 0xF0 && 0x80 <= b[1] < 0xC0 && 0x80 <= b[2] < 0xC0
              && (b[0] as int - 0xE0) * 0x1000 + (b[1] as int - 0x80) * 0x40 + (b[2] as int - 0x80) == c
            else
              |b| == 4 && 0xF0 <= b[0] <= 0xF4 && 0x80 <= b[1] < 0xC0 && 0x80 <= b[2] < 0xC0 && 0x80 <= b[3] < 0xC0
              && (b[0] as int - 0xF0) * 0x4_0000 + (b[1] as int - 0x80) * 0x1000
                 + (b[2] as int - 0x80) * 0x40 + (b[3] as int - 0x80) == c
  {
    var d, e := c / 0x40, c / 0x1000;
    assert c == d * 0x40 + c % 0x40;
    assert d == e * 0x40 + d % 0x40 && c / 0x4_0000 == e / 0x40;
  }

  lemma OnlyNulHasNul(c: CodePoint)
    ensures 0 in Encoded(c) <==> c == 0
  {
    if c >= 0x80 {
      forall i | 0 <= i < |Encoded(c)| ensures Encoded(c)[i] >= 0x80 {
      }
    }
  }

  lemma {:induction false} EncodedNuls(cs: seq<CodePoint>)
    ensures 0 in EncodedAll(cs) <==> 0 in cs
  {
    if cs != [] {
      OnlyNulHasNul(cs[0]);
      EncodedNuls(cs[1..]);
      assert cs == [cs[0]] + cs[1..];
    }
  }

  lemma {:induction false} CodePointNuls(s: JsString)
    ensures 0 in CodePoints(s) <==> NUL in s
  {
    if s != [] {
      if High(s[0]) && |s| > 1 && Low(s[1]) {
        CodePointNuls(s[2..]);
        assert s == [s[0], s[1]] + s[2..];
      } else {
        CodePointNuls(s[1..]);
        assert s == [s[0]] + s[1..];
      }
    }
  }

  /** The bytes contain a NUL just when the string does. */
  lemma Utf8KeepsNuls(s: JsString)
    ensures NulFree(Utf8(s)) <==> NUL !in s
  {
    CodePointNuls(s);
    EncodedNuls(CodePoints(s));
  }

  lemma {:induction false} CodePointsOfTerminated(s: JsString)
    ensures CodePoints(s + [NUL]) == CodePoints(s) + [0]
  {
    if s == [] {
      assert s + [NUL] == [NUL] && [NUL][1..] == [];
    } else if High(s[0]) && |s| > 1 && Low(s[1]) {
      assert (s + [NUL])[2..] == s[2..] + [NUL];
      CodePointsOfTerminated(s[2..]);
    } else {
      assert (s + [NUL])[1..] == s[1..] + [NUL];
      CodePointsOfTerminated(s[1..]);
    }
  }

  lemma {:induction false} EncodedOneMore(cs: seq<CodePoint>, c: CodePoint)
    ensures EncodedAll(cs + [c]) == EncodedAll(cs) + Encoded(c)
  {
    if cs == [] {
      assert cs + [c] == [c] && [c][1..] == [];
    } else {
      assert (cs + [c])[1..] == cs[1..] + [c];
      EncodedOneMore(cs[1..], c);
    }
  }

  /** What `strPtr` writes, the encoding of the string and a NUL, is the string's bytes and a NUL. */
  lemma TerminatedUtf8(s: JsString)
    ensures Utf8(s + [NUL]) == Utf8(s) + [0]
  {
    CodePointsOfTerminated(s);
    EncodedOneMore(CodePoints(s), 0);
  }

  // ---- Command line and environment ----

  /** A property of the object `env`. */
  datatype EnvVar = EnvVar(key: JsString, value: JsString)

  predicate KeyLess(x: EnvVar, y: EnvVar) { CodesLess(x.key, y.key) }

  /** Keys of an object are distinct. */
  predicate DistinctKeys(env: seq<EnvVar>) {
    forall i, j :: 0 <= i < j < |env| ==> env[i].key != env[j].key
  }

  lemma KeysAreOrdered(env: seq<EnvVar>)
    requires DistinctKeys(env)
    ensures StrictWeak(KeyLess) && TotalOn(env, KeyLess)
  {
    forall x, y | KeyLess(x, y) ensures !KeyLess(y, x) { CodesLessIsStrict(x.key, y.key); }
    forall x, y, z | !KeyLess(x, y) && !KeyLess(y, z) ensures !KeyLess(x, z) {
      CodesLessIsNegativelyTransitive(x.key, y.key, z.key);
    }
    forall x, y | x in env && y in env && x != y ensures KeyLess(x, y) || KeyLess(y, x) {
      var i :| 0 <= i < |env| && env[i] == x;
      var j :| 0 <= j < |env| && env[j] == y;
      CodesLessIsTotal(x.key, y.key);
    }
  }

  function Text(v: EnvVar): JsString { v.key + [EQUALS] + v.value }

  function Args(argv: seq<JsString>): (r: seq<Bytes>)
    ensures |r| == |argv| && forall i :: 0 <= i < |argv| ==> r[i] == Utf8(argv[i])
  {
    if argv == [] then [] else [Utf8(argv[0])] + Args(argv[1..])
  }

  function Texts(vars: seq<EnvVar>): (r: seq<Bytes>)
    ensures |r| == |vars| && forall i :: 0 <= i < |vars| ==> r[i] == Utf8(Text(vars[i]))
  {
    if vars == [] then [] else [Utf8(Text(vars[0]))] + Texts(vars[1..])
  }

  function EnvStrings(env: seq<EnvVar>): seq<Bytes> { Texts(Sort(env, KeyLess)) }

  /** The argument-passing part of `run`, for the properties of `env` in any order. */
  method PassEnvironment(mem: array<Byte>, argv: seq<JsString>, env: seq<EnvVar>) returns (r: Outcome)
    requires DistinctKeys(env)
    modifies mem
    ensures r == Expected(Args(argv) + EnvStrings(env), |argv|, mem.Length)
    ensures r.Ok? ==> Laid(mem[..], Args(argv), EnvStrings(env))
  {
    KeysAreOrdered(env);
    var vars := SortTotally(env, KeyLess);
    r := PassArguments(mem, Args(argv), Texts(vars));
  }

  /** Sorted, distinct keys are strictly ascending. */
  lemma KeysAscend(env: seq<EnvVar>, vars: seq<EnvVar>)
    requires DistinctKeys(env) && IsPermutation(vars, env) && Sorted(vars, KeyLess)
    ensures forall i, j :: 0 <= i < j < |vars| ==> CodesLess(vars[i].key, vars[j].key)
  {
    forall i, j | 0 <= i < j < |vars| ensures CodesLess(vars[i].key, vars[j].key) {
      assert !KeyLess(vars[j], vars[i]);
      KeysDiffer(env, vars, i, j);
      CodesLessIsTotal(vars[i].key, vars[j].key);
    }
  }

  lemma KeysDiffer(env: seq<EnvVar>, vars: seq<EnvVar>, i: nat, j: nat)
    requires DistinctKeys(env) && IsPermutation(vars, env) && i < j < |vars|
    ensures vars[i].key != vars[j].key
  {
    PermutationMembers(vars, env);
    assert vars[i] in env && vars[j] in env;
    var k :| 0 <= k < |env| && env[k] == vars[i];
    if vars[i] == vars[j] {
      TwoOf(vars, i, j);
      OnceOnly(env, k);
    }
  }

  predicate NulFreeArgs(argv: seq<JsString>) { forall s <- argv :: NUL !in s }

  predicate NulFreeEnv(env: seq<EnvVar>) { forall v <- env :: NUL !in v.key && NUL !in v.value }

  lemma ArgsNuls(argv: seq<JsString>)
    ensures (forall s <- Args(argv) :: NulFree(s)) <==> NulFreeArgs(argv)
  {
    forall i | 0 <= i < |argv|
      ensures Args(argv)[i] in Args(argv) && argv[i] in argv && (NulFree(Args(argv)[i]) <==> NUL !in argv[i])
    {
      Utf8KeepsNuls(argv[i]);
    }
  }

  lemma TextsNuls(vars: seq<EnvVar>)
    ensures (forall s <- Texts(vars) :: NulFree(s)) <==> NulFreeEnv(vars)
  {
    forall i | 0 <= i < |vars|
      ensures Texts(vars)[i] in Texts(vars) && vars[i] in vars
      ensures NulFree(Texts(vars)[i]) <==> NUL !in vars[i].key && NUL !in vars[i].value
    {
      Utf8KeepsNuls(Text(vars[i]));
    }
  }

  /** The strings of the environment: each variable once, ordered by key, as key, `=` and value. */
  lemma VariablesInOrder(env: seq<EnvVar>)
    requires DistinctKeys(env)
    ensures exists vars: seq<EnvVar> ::
              && IsPermutation(vars, env)
              && (forall i, j :: 0 <= i < j < |vars| ==> CodesLess(vars[i].key, vars[j].key))
              && |EnvStrings(env)| == |vars|
              && (forall i :: 0 <= i < |vars| ==> EnvStrings(env)[i] == Utf8(vars[i].key + [61] + vars[i].value))
  {
    var vars := Sort(env, KeyLess);
    KeysAreOrdered(env);
    SortSorts(env, KeyLess);
    KeysAscend(env, vars);
  }

  lemma VariablesNuls(env: seq<EnvVar>)
    requires DistinctKeys(env)
    ensures (forall s <- EnvStrings(env) :: NulFree(s)) <==> NulFreeEnv(env)
  {
    var vars := Sort(env, KeyLess);
    KeysAreOrdered(env);
    SortSorts(env, KeyLess);
    TextsNuls(vars);
    PermutationMembers(vars, env);
  }

  /** If `run` does not throw, the program finds its arguments and, ordered by key, every variable
      of its environment once, if and only if no argument, key or value contains a NUL. */
  lemma ProgramFindsItsEnvironment(m: seq<Byte>, argv: seq<JsString>, env: seq<EnvVar>)
    requires DistinctKeys(env) && Laid(m, Args(argv), EnvStrings(env))
    ensures exists vars: seq<EnvVar> ::
              && IsPermutation(vars, env)
              && (forall i, j :: 0 <= i < j < |vars| ==> CodesLess(vars[i].key, vars[j].key))
              && |EnvStrings(env)| == |vars|
              && (forall i :: 0 <= i < |vars| ==> EnvStrings(env)[i] == Utf8(vars[i].key + [61] + vars[i].value))
    ensures Finds(m, TableStart(Args(argv) + EnvStrings(env)), Args(argv), EnvStrings(env))
            <==> NulFreeArgs(argv) && NulFreeEnv(env)
  {
    VariablesInOrder(env);
    LayoutRoundTrip(m, Args(argv), EnvStrings(env));
    ArgsNuls(argv);
    VariablesNuls(env);
    BothNulFree(Args(argv), EnvStrings(env));
  }

  lemma BothNulFree(a: seq<Bytes>, b: seq<Bytes>)
    ensures (forall s <- a + b :: NulFree(s)) <==> (forall s <- a :: NulFree(s)) && (forall s <- b :: NulFree(s))
  {
    assert forall s :: s in a + b <==> s in a || s in b;
  }
}
