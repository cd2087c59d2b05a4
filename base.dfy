/** Values shared by every module of the model: optional values, results,
    Python exceptions and the outcome of an awaited computation. */
module Base {

  datatype Option<+T> = None | Some(value: T)

  datatype Result<+T, +E> = Ok(value: T) | Err(error: E)

  /** A Python exception. `Error` stands for any subclass of `Exception`;
      `Cancelled` is asyncio's `CancelledError`, which derives from
      `BaseException` only, so `except Exception` does not catch it. */
  datatype Exc = Error(message: string) | Cancelled
  {
    predicate IsException() { Error? }
  }

  /** How an awaited computation ends: it returns a value or raises. */
  datatype Outcome<+V> = Returned(value: V) | Raised(exc: Exc)

  function Min(a: int, b: int): int { if a <= b then a else b }

  function Max(a: int, b: int): int { if a >= b then a else b }

  /** No element occurs twice. */
  ghost predicate NoDup<T>(s: seq<T>) {
    forall i, j :: 0 <= i < j < |s| ==> s[i] != s[j]
  }

  /** Number of occurrences of `x` in `s`. */
  function Count<T(==)>(s: seq<T>, x: T): nat {
    if s == [] then 0 else Count(s[..|s| - 1], x) + (if s[|s| - 1] == x then 1 else 0)
  }

  lemma {:induction false} CountAppend<T>(a: seq<T>, b: seq<T>, x: T)
    ensures Count(a + b, x) == Count(a, x) + Count(b, x)
    decreases |b|
  {
    if b == [] {
      assert a + b == a;
    } else {
      assert (a + b)[..|a + b| - 1] == a + b[..|b| - 1];
      CountAppend(a, b[..|b| - 1], x);
    }
  }

  lemma {:induction false} CountZero<T>(s: seq<T>, x: T)
    ensures Count(s, x) == 0 <==> x !in s
    decreases |s|
  {
    if s != [] {
      CountZero(s[..|s| - 1], x);
      assert s == s[..|s| - 1] + [s[|s| - 1]];
    }
  }

  /** Sequencing of two partial results: the first error wins, otherwise
      the values are concatenated. */
  function Then<T, E>(a: Result<seq<T>, E>, b: Result<seq<T>, E>): Result<seq<T>, E> {
    match a
    case Err(e) => Err(e)
    case Ok(xs) =>
      match b
      case Err(e) => Err(e)
      case Ok(ys) => Ok(xs + ys)
  }

  lemma ThenAssoc<T, E>(a: Result<seq<T>, E>, b: Result<seq<T>, E>, c: Result<seq<T>, E>)
    ensures Then(Then(a, b), c) == Then(a, Then(b, c))
  {
    if a.Ok? && b.Ok? && c.Ok? {
      assert (a.value + b.value) + c.value == a.value + (b.value + c.value);
    }
  }

  lemma ThenUnit<T, E>(a: Result<seq<T>, E>)
    ensures Then(Ok([]), a) == a
  {
    if a.Ok? {
      assert [] + a.value == a.value;
    }
  }

  /** Moving a finished prefix of values into the accumulator. */
  lemma ThenStep<T, E>(a: seq<T>, b: seq<T>, c: Result<seq<T>, E>)
    ensures Then(Ok(a), Then(Ok(b), c)) == Then(Ok(a + b), c)
  {
    ThenAssoc(Ok(a), Ok(b), c);
  }

  lemma ThenEnd<T, E>(a: seq<T>)
    ensures Then<T, E>(Ok(a), Ok([])) == Ok(a)
  {
    assert a + [] == a;
  }

  lemma ConcatAssoc<T>(a: seq<T>, b: seq<T>, c: seq<T>)
    ensures (a + b) + c == a + (b + c)
  {
  }

  /** A sequence is its first `n` elements followed by the rest. */
  lemma TakeDrop<T>(s: seq<T>, n: nat)
    requires n <= |s|
    ensures s[..n] + s[n..] == s
  {
  }

  lemma TakeNext<T>(s: seq<T>, n: nat)
    requires n < |s|
    ensures s[..n] + [s[n]] == s[..n + 1]
  {
  }

  lemma PrefixOf<T>(p: seq<T>, x: seq<T>)
    ensures p <= p + x && (p + x)[|p|..] == x
  {
    assert (p + x)[..|p|] == p;
  }

  /** A prefix followed by what comes after it is the whole sequence. */
  lemma PrefixRest<T>(p: seq<T>, s: seq<T>)
    requires p <= s
    ensures s == p + s[|p|..]
  {
    assert s[..|p|] == p;
  }

  /** The results of `f` on the consecutive slices of `size` elements of
      `xs`, starting at `idx`, joined in order; the first error wins. */
  function Chunked<T, U, E>(f: seq<T> -> Result<seq<U>, E>, xs: seq<T>, idx: nat, size: nat): Result<seq<U>, E>
    requires size > 0
    decreases |xs| - idx
  {
    if idx >= |xs| then Ok([])
    else Then(f(xs[idx..Min(idx + size, |xs|)]), Chunked(f, xs, idx + size, size))
  }

  /** The start of the slice that holds position `i`, slicing from `idx`. */
  function ChunkStart(idx: nat, i: nat, size: nat): (s: nat)
    requires idx <= i && size > 0
    ensures idx <= s <= i < s + size
    decreases i - idx
  {
    if i < idx + size then idx else ChunkStart(idx + size, i, size)
  }

  /** Indexing past the first part of a concatenation. */
  lemma AppendIndex<T>(a: seq<T>, b: seq<T>, k: int)
    requires |a| <= k < |a| + |b|
    ensures (a + b)[k] == b[k - |a|]
  {
  }

  /** A successful join is the first slice's result followed by the
      join of the rest. */
  lemma ChunkedStep<T, U, E>(f: seq<T> -> Result<seq<U>, E>, xs: seq<T>, idx: nat, size: nat)
    requires size > 0 && idx < |xs|
    requires forall ys :: f(ys).Ok? ==> |f(ys).value| == |ys|
    requires Chunked(f, xs, idx, size).Ok?
    ensures var head := f(xs[idx..Min(idx + size, |xs|)]);
      var rest := Chunked(f, xs, idx + size, size);
      && head.Ok? && rest.Ok?
      && |head.value| == Min(idx + size, |xs|) - idx
      && Chunked(f, xs, idx, size).value == head.value + rest.value
  {
  }

  /** When `f` keeps lengths, element `i` of the join is element `i - s`
      of the result on the slice starting at `s` that holds `i`. */
  lemma {:induction false} ChunkedAt<T, U, E>(f: seq<T> -> Result<seq<U>, E>, xs: seq<T>, idx: nat, size: nat, i: nat)
    requires size > 0 && idx <= i < |xs|
    requires forall ys :: f(ys).Ok? ==> |f(ys).value| == |ys|
    requires Chunked(f, xs, idx, size).Ok?
    ensures var s := ChunkStart(idx, i, size);
      var part := f(xs[s..Min(s + size, |xs|)]);
      && part.Ok? && |part.value| == Min(s + size, |xs|) - s
      && |Chunked(f, xs, idx, size).value| > i - idx
      && Chunked(f, xs, idx, size).value[i - idx] == part.value[i - s]
    decreases |xs| - idx
  {
    ChunkedStep(f, xs, idx, size);
    var head := f(xs[idx..Min(idx + size, |xs|)]).value;
    var rest := Chunked(f, xs, idx + size, size).value;
    if i < idx + size {
      assert ChunkStart(idx, i, size) == idx;
    } else {
      assert ChunkStart(idx, i, size) == ChunkStart(idx + size, i, size);
      ChunkedAt(f, xs, idx + size, size, i);
      AppendIndex(head, rest, i - idx);
    }
  }

}
