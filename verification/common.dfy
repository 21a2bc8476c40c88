/** Shared result shapes: optional values, the values JavaScript code can throw,
    and the outcome of one awaited call to the commerce platform. */
module Common {

  datatype Option<+T> = None | Some(value: T) {

    /** Returns the value held in Some, or the given default (`x ?? d`). */
    function GetOr(default: T): T {
      match this
      case Some(v) => v
      case None => default
    }
  }

  /** A value thrown in JavaScript: an `Error` instance (with its message),
      a bare string, or anything else. */
  datatype Thrown = ErrorObject(message: string) | ThrownString(text: string) | ThrownOther

  /** The outcome of one awaited platform call: it resolves or it rejects. */
  datatype Call<+T> = Returns(value: T) | Throws(error: Thrown)

  /** The `{ response?, success, message }` envelope most operations resolve to. */
  datatype Envelope<+T> = Envelope(response: Option<T>, success: bool, message: string)

  /** An envelope reporting failure, without a response. */
  function Failure<T>(message: string): Envelope<T> {
    Envelope(None, false, message)
  }

  /** `error instanceof Error ? error.message : fallback`, the idiom every catch block uses. */
  function MessageOr(e: Thrown, fallback: string): string {
    if e.ErrorObject? then e.message else fallback
  }

  /** JavaScript truthiness of an optional string: defined and not empty. */
  predicate Truthy(s: Option<string>) {
    s.Some? && s.value != ""
  }

  /** JavaScript truthiness of an optional number: defined and not zero. */
  predicate TruthyNum(n: Option<int>) {
    n.Some? && n.value != 0
  }

  /** `a || b` on optional strings: the first operand when it is truthy, else the second. */
  function OrElse(a: Option<string>, b: string): string {
    if Truthy(a) then a.value else b
  }

  /** Decimal rendering of a natural number, as template literals print it. */
  function NatToString(n: nat): string
    decreases n
  {
    var d := ['0', '1', '2', '3', '4', '5', '6', '7', '8', '9'];
    if n < 10 then [d[n]] else NatToString(n / 10) + [d[n % 10]]
  }

  /** Decimal rendering of an integer, with a leading minus sign when negative. */
  function IntToString(n: int): string {
    if n < 0 then "-" + NatToString(-n) else NatToString(n)
  }

  /** `xs` is `ys` with some elements left out, the rest in order. */
  predicate IsSubsequence<T(==)>(xs: seq<T>, ys: seq<T>)
    decreases |ys|
  {
    if |xs| == 0 then true
    else if |ys| == 0 then false
    else if xs[0] == ys[0] then IsSubsequence(xs[1..], ys[1..])
    else IsSubsequence(xs, ys[1..])
  }

  /** How often `x` occurs in `s`. */
  function Count<T(==)>(s: seq<T>, x: T): nat {
    if |s| == 0 then 0 else (if s[0] == x then 1 else 0) + Count(s[1..], x)
  }

  /** A subsequence stays one when the longer sequence gains a head. */
  lemma {:induction false} SubsequenceExtend<T>(xs: seq<T>, ys: seq<T>, y: T)
    requires IsSubsequence(xs, ys)
    ensures IsSubsequence(xs, [y] + ys)
    decreases |ys|, 1
  {
    var zs := [y] + ys;
    assert zs[1..] == ys;
    if |xs| > 0 && xs[0] == y {
      SubsequenceDropHead(xs, ys);
    }
  }

  /** Dropping the head of a subsequence leaves a subsequence. */
  lemma {:induction false} SubsequenceDropHead<T>(xs: seq<T>, ys: seq<T>)
    requires |xs| > 0 && IsSubsequence(xs, ys)
    ensures IsSubsequence(xs[1..], ys)
    decreases |ys|, 0
  {
    assert |ys| > 0;
    assert [ys[0]] + ys[1..] == ys;
    if xs[0] == ys[0] {
      SubsequenceExtend(xs[1..], ys[1..], ys[0]);
    } else {
      SubsequenceDropHead(xs, ys[1..]);
      SubsequenceExtend(xs[1..], ys[1..], ys[0]);
    }
  }
}
