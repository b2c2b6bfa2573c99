/**
 * String operations of the JavaScript runtime that the streaming layer relies on:
 * `String.prototype.split` with a string separator, `trim`, `startsWith`, and the
 * concatenation of the chunks a stream delivers.
 */
module Text {
  import opened Wrappers

  /** `d` occurs in `s` at position `p`. */
  predicate OccursAt(s: string, d: string, p: nat) {
    p + |d| <= |s| && s[p..p + |d|] == d
  }

  lemma OccursAtTail(s: string, d: string, p: nat)
    requires |s| > 0
    ensures OccursAt(s, d, p + 1) <==> OccursAt(s[1..], d, p)
  {
    if p + 1 + |d| <= |s| {
      assert s[p + 1..p + 1 + |d|] == s[1..][p..p + |d|];
    }
  }

  /** The position of the leftmost occurrence of `d` in `s`, as `indexOf` finds it. */
  function IndexOf(s: string, d: string): (r: Option<nat>)
    requires |d| > 0
    ensures r.Some? ==> r.value + |d| <= |s|
    decreases |s|
  {
    if |s| < |d| then None
    else if s[..|d|] == d then Some(0)
    else
      match IndexOf(s[1..], d)
      case None => None
      case Some(q) => Some(q + 1)
  }

  /** `IndexOf` reports an occurrence, no occurrence lies before it, and None means there is none. */
  lemma {:induction false} IndexOfFinds(s: string, d: string)
    requires |d| > 0
    ensures IndexOf(s, d).Some? ==> OccursAt(s, d, IndexOf(s, d).value)
    ensures IndexOf(s, d).Some? ==> forall p: nat :: p < IndexOf(s, d).value ==> !OccursAt(s, d, p)
    ensures IndexOf(s, d).None? ==> forall p: nat :: !OccursAt(s, d, p)
    decreases |s|
  {
    if |s| >= |d| && s[..|d|] != d {
      IndexOfFinds(s[1..], d);
      forall p: nat ensures OccursAt(s, d, p + 1) <==> OccursAt(s[1..], d, p) {
        OccursAtTail(s, d, p);
      }
      assert forall p: nat :: OccursAt(s, d, p) ==> p == 0 || OccursAt(s[1..], d, p - 1);
    }
  }

  /**
   * `s.split(d)` for a non-empty string separator: the pieces between the
   * leftmost non-overlapping occurrences of `d`, scanning left to right.
   */
  function Split(s: string, d: string): (r: seq<string>)
    requires |d| > 0
    ensures |r| >= 1
    decreases |s|
  {
    match IndexOf(s, d)
    case None => [s]
    case Some(p) => [s[..p]] + Split(s[p + |d|..], d)
  }

  /** Every element but the last: the complete lines of a split buffer. */
  function Init<T>(r: seq<T>): seq<T>
    requires |r| >= 1
  {
    r[..|r| - 1]
  }

  /** The last element: what `lines.pop()` returns. */
  function Last<T>(r: seq<T>): T
    requires |r| >= 1
  {
    r[|r| - 1]
  }

  // Sequence facts stated over plain variables, so that proofs about `Split`
  // use them without unfolding `Split` again.

  lemma AppendAssoc<T>(a: seq<T>, b: seq<T>, c: seq<T>)
    ensures (a + b) + c == a + (b + c)
  {
  }

  lemma ConsTail<T>(x: T, t: seq<T>)
    ensures ([x] + t)[1..] == t
  {
  }

  lemma InitLastAppend<T>(h: seq<T>, t: seq<T>)
    requires |t| >= 1
    ensures Init(h + t) == h + Init(t) && Last(h + t) == Last(t)
  {
  }

  lemma SliceOfAppend<T>(s: seq<T>, c: seq<T>, p: nat, q: nat)
    requires p <= q <= |s|
    ensures (s + c)[..p] == s[..p] && (s + c)[q..] == s[q..] + c
  {
  }

  /** One step of `Split` at the leftmost occurrence. */
  lemma SplitCons(s: string, d: string, p: nat)
    requires |d| > 0 && IndexOf(s, d) == Some(p)
    ensures Split(s, d) == [s[..p]] + Split(s[p + |d|..], d)
  {
  }

  /** `parts.join(d)`. */
  function Join(parts: seq<string>, d: string): string
    decreases |parts|
  {
    if |parts| == 0 then ""
    else if |parts| == 1 then parts[0]
    else parts[0] + d + Join(parts[1..], d)
  }

  /** Joining the pieces again with the separator gives back the original string. */
  lemma {:induction false} SplitJoin(s: string, d: string)
    requires |d| > 0
    ensures Join(Split(s, d), d) == s
    decreases |s|
  {
    match IndexOf(s, d)
    case None =>
    case Some(p) =>
      var rest := s[p + |d|..];
      var tail := Split(rest, d);
      SplitCons(s, d, p);
      SplitJoin(rest, d);
      ConsTail(s[..p], tail);
      assert s == s[..p] + d + rest by {
        IndexOfFinds(s, d);
        assert s[p..p + |d|] == d;
      }
  }

  /** No piece of a split contains the separator. */
  lemma {:induction false} SplitPiecesAreFree(s: string, d: string, i: nat, q: nat)
    requires |d| > 0
    requires i < |Split(s, d)|
    ensures !OccursAt(Split(s, d)[i], d, q)
    decreases |s|
  {
    IndexOfFinds(s, d);
    match IndexOf(s, d)
    case None =>
    case Some(p) =>
      if i == 0 {
        if OccursAt(s[..p], d, q) {
          assert s[..p][q..q + |d|] == s[q..q + |d|];
          assert OccursAt(s, d, q);
        }
      } else {
        SplitPiecesAreFree(s[p + |d|..], d, i - 1, q);
      }
  }

  /** A character absent from `s` is absent from every piece of its split. */
  lemma {:induction false} SplitPiecesOmit(s: string, d: string, c: char, i: nat)
    requires |d| > 0
    requires c !in s && i < |Split(s, d)|
    ensures c !in Split(s, d)[i]
    decreases |s|
  {
    match IndexOf(s, d)
    case None =>
    case Some(p) =>
      if i == 0 {
        assert forall k :: 0 <= k < p ==> s[..p][k] == s[k];
      } else {
        var rest := s[p + |d|..];
        assert c !in rest by {
          assert forall k :: 0 <= k < |rest| ==> rest[k] == s[p + |d| + k];
        }
        SplitPiecesOmit(s[p + |d|..], d, c, i - 1);
      }
  }

  /** Appending text after an occurrence does not move the leftmost occurrence. */
  lemma {:induction false} IndexOfAppend(s: string, c: string, d: string)
    requires |d| > 0
    requires IndexOf(s, d).Some?
    ensures IndexOf(s + c, d) == IndexOf(s, d)
    decreases |s|
  {
    assert (s + c)[..|d|] == s[..|d|];
    if s[..|d|] != d {
      assert (s + c)[1..] == s[1..] + c;
      IndexOfAppend(s[1..], c, d);
    }
  }

  /**
   * Splitting `s + c` re-splits only the last piece of `s` together with `c`:
   * the complete pieces of `s` stay as they are. This is what makes a buffer
   * that keeps the last piece equivalent to splitting the whole text at once.
   */
  lemma {:induction false} SplitAppend(s: string, c: string, d: string)
    requires |d| > 0
    ensures Split(s + c, d) == Init(Split(s, d)) + Split(Last(Split(s, d)) + c, d)
    decreases |s|
  {
    match IndexOf(s, d)
    case None =>
      assert Split(s, d) == [s];
    case Some(p) =>
      var rest := s[p + |d|..];
      var head := [s[..p]];
      var tail := Split(rest, d);
      SplitCons(s, d, p);
      IndexOfAppend(s, c, d);
      SplitCons(s + c, d, p);
      SliceOfAppend(s, c, p, p + |d|);
      SplitAppend(rest, c, d);
      var more := Split(Last(tail) + c, d);
      AppendAssoc(head, Init(tail), more);
      InitLastAppend(head, tail);
  }

  /** A separator whose first character does not occur in `s` does not occur in `s`. */
  lemma AbsentLead(s: string, d: string)
    requires |d| > 0 && d[0] !in s
    ensures IndexOf(s, d).None?
    ensures Split(s, d) == [s]
  {
  }

  /** A one-character separator occurs exactly when the character does. */
  lemma SingleCharSplit(s: string, c: char)
    ensures |Split(s, [c])| == 1 <==> c !in s
  {
    if c in s {
      var p :| 0 <= p < |s| && s[p] == c;
      assert s[p..p + 1] == [c];
      assert OccursAt(s, [c], p);
      IndexOfFinds(s, [c]);
    } else {
      AbsentLead(s, [c]);
    }
  }

  /** The concatenation of the chunks a stream has delivered, in order. */
  function Concat(chunks: seq<string>): string
    decreases |chunks|
  {
    if |chunks| == 0 then "" else Concat(chunks[..|chunks| - 1]) + chunks[|chunks| - 1]
  }

  lemma ConcatStep(chunks: seq<string>, i: nat)
    requires i < |chunks|
    ensures Concat(chunks[..i + 1]) == Concat(chunks[..i]) + chunks[i]
  {
    assert chunks[..i + 1][..i] == chunks[..i];
  }

  /** One step of a split buffer: the complete lines grow, the kept piece is re-split with the new chunk. */
  lemma BufferStep(total: string, chunk: string, d: string)
    requires |d| > 0
    ensures Init(Split(total + chunk, d)) == Init(Split(total, d)) + Init(Split(Last(Split(total, d)) + chunk, d))
    ensures Last(Split(total + chunk, d)) == Last(Split(Last(Split(total, d)) + chunk, d))
  {
    SplitAppend(total, chunk, d);
    var a := Init(Split(total, d));
    var b := Split(Last(Split(total, d)) + chunk, d);
    assert Init(a + b) == a + Init(b);
  }

  /** The outputs of `f` for each element of `xs`, concatenated in order. */
  function FlatMap<T, U>(f: T -> seq<U>, xs: seq<T>): seq<U>
    decreases |xs|
  {
    if |xs| == 0 then [] else FlatMap(f, xs[..|xs| - 1]) + f(xs[|xs| - 1])
  }

  lemma {:induction false} FlatMapAppend<T, U>(f: T -> seq<U>, a: seq<T>, b: seq<T>)
    ensures FlatMap(f, a + b) == FlatMap(f, a) + FlatMap(f, b)
    decreases |b|
  {
    if |b| == 0 {
      assert a + b == a;
    } else {
      var b' := b[..|b| - 1];
      assert (a + b)[..|a + b| - 1] == a + b';
      FlatMapAppend(f, a, b');
    }
  }

  lemma FlatMapStep<T, U>(f: T -> seq<U>, xs: seq<T>, j: nat)
    requires j < |xs|
    ensures FlatMap(f, xs[..j + 1]) == FlatMap(f, xs[..j]) + f(xs[j])
  {
    assert xs[..j + 1][..j] == xs[..j];
  }

  /** An element `f` maps to nothing leaves FlatMap unchanged. */
  lemma FlatMapSkip<T, U>(f: T -> seq<U>, a: seq<T>, x: T, b: seq<T>)
    requires f(x) == []
    ensures FlatMap(f, a + [x] + b) == FlatMap(f, a + b)
  {
    FlatMapAppend(f, a + [x], b);
    FlatMapAppend(f, a, b);
    assert (a + [x])[..|a + [x]| - 1] == a;
  }

  /** The value `f` gives for the last element that has one, or `initial` when none has. */
  function LastSome<T, U>(f: T -> Option<U>, xs: seq<T>, initial: U): U
    decreases |xs|
  {
    if |xs| == 0 then initial
    else if f(xs[|xs| - 1]).Some? then f(xs[|xs| - 1]).value
    else LastSome(f, xs[..|xs| - 1], initial)
  }

  lemma {:induction false} LastSomeAppend<T, U>(f: T -> Option<U>, a: seq<T>, b: seq<T>, initial: U)
    ensures LastSome(f, a + b, initial) == LastSome(f, b, LastSome(f, a, initial))
    decreases |b|
  {
    if |b| == 0 {
      assert a + b == a;
    } else {
      var b' := b[..|b| - 1];
      assert (a + b)[..|a + b| - 1] == a + b';
      assert (a + b)[|a + b| - 1] == b[|b| - 1];
      LastSomeAppend(f, a, b', initial);
    }
  }

  lemma LastSomeStep<T, U>(f: T -> Option<U>, xs: seq<T>, j: nat, initial: U)
    requires j < |xs|
    ensures LastSome(f, xs[..j + 1], initial) == f(xs[j]).GetOr(LastSome(f, xs[..j], initial))
  {
    assert xs[..j + 1][..j] == xs[..j];
  }

  /** An element `f` has no value for leaves LastSome unchanged. */
  lemma LastSomeSkip<T, U>(f: T -> Option<U>, a: seq<T>, x: T, b: seq<T>, initial: U)
    requires f(x).None?
    ensures LastSome(f, a + [x] + b, initial) == LastSome(f, a + b, initial)
  {
    LastSomeAppend(f, a + [x], b, initial);
    LastSomeAppend(f, a, b, initial);
    assert (a + [x])[..|a + [x]| - 1] == a;
  }

  /** LastSome is the value of the last element that has one, and `initial` when none has. */
  lemma {:induction false} LastSomeIsLast<T, U>(f: T -> Option<U>, xs: seq<T>, initial: U)
    ensures (forall k :: 0 <= k < |xs| ==> f(xs[k]).None?) ==> LastSome(f, xs, initial) == initial
    ensures (exists k :: 0 <= k < |xs| && f(xs[k]).Some?) ==>
      exists k :: 0 <= k < |xs| && f(xs[k]).Some? && LastSome(f, xs, initial) == f(xs[k]).value
        && forall k' :: k < k' < |xs| ==> f(xs[k']).None?
    decreases |xs|
  {
    if |xs| > 0 {
      var init := xs[..|xs| - 1];
      LastSomeIsLast(f, init, initial);
      if f(xs[|xs| - 1]).None? {
        assert forall k :: 0 <= k < |init| ==> init[k] == xs[k];
        if exists k :: 0 <= k < |xs| && f(xs[k]).Some? {
          var k :| 0 <= k < |xs| && f(xs[k]).Some?;
          assert f(init[k]).Some?;
        }
      }
    }
  }

  /** `s.startsWith(p)`. */
  predicate StartsWith(s: string, p: string) {
    |p| <= |s| && s[..|p|] == p
  }

  /**
   * The characters `String.prototype.trim` removes: ECMAScript WhiteSpace
   * (tab, vertical tab, form feed, space, no-break space, the byte-order mark
   * and the space separators of Unicode category Zs) and LineTerminator.
   */
  predicate IsJsSpace(c: char) {
    var n := c as int;
    n == 0x09 || n == 0x0B || n == 0x0C || n == 0x20 || n == 0xA0 || n == 0xFEFF
    || n == 0x1680 || (0x2000 <= n <= 0x200A) || n == 0x202F || n == 0x205F || n == 0x3000
    || n == 0x0A || n == 0x0D || n == 0x2028 || n == 0x2029
  }

  /**
   * `s.trim()`: the text between the leading and the trailing white space; it is
   * empty exactly when `s` is all white space.
   */
  function Trim(s: string): (r: string)
    ensures |r| <= |s|
    decreases |s|
  {
    if |s| > 0 && IsJsSpace(s[0]) then Trim(s[1..])
    else if |s| > 0 && IsJsSpace(s[|s| - 1]) then Trim(s[..|s| - 1])
    else s
  }

  /** `t` is `s[i..j]`, and everything of `s` outside `i..j` is white space. */
  predicate TrimmedFrom(s: string, t: string, i: int, j: int) {
    0 <= i <= j <= |s| && t == s[i..j]
    && (forall k :: 0 <= k < i ==> IsJsSpace(s[k]))
    && (forall k :: j <= k < |s| ==> IsJsSpace(s[k]))
  }

  /** Trim keeps a slice of `s` and removes only white space around it. */
  lemma {:induction false} TrimIsInner(s: string)
    ensures exists i, j :: TrimmedFrom(s, Trim(s), i, j)
    decreases |s|
  {
    if |s| > 0 && IsJsSpace(s[0]) {
      var rest := s[1..];
      TrimIsInner(rest);
      var i, j :| TrimmedFrom(rest, Trim(rest), i, j);
      assert rest[i..j] == s[i + 1..j + 1];
      forall k | 0 <= k < i + 1 ensures IsJsSpace(s[k]) {
        if k > 0 {
          assert s[k] == rest[k - 1];
        }
      }
      forall k | j + 1 <= k < |s| ensures IsJsSpace(s[k]) {
        assert s[k] == rest[k - 1];
      }
      assert TrimmedFrom(s, Trim(s), i + 1, j + 1);
    } else if |s| > 0 && IsJsSpace(s[|s| - 1]) {
      var rest := s[..|s| - 1];
      TrimIsInner(rest);
      var i, j :| TrimmedFrom(rest, Trim(rest), i, j);
      assert rest[i..j] == s[i..j];
      forall k | j <= k < |s| ensures IsJsSpace(s[k]) {
        if k < |s| - 1 {
          assert s[k] == rest[k];
        }
      }
      assert TrimmedFrom(s, Trim(s), i, j);
    } else {
      assert s[0..|s|] == s;
      assert TrimmedFrom(s, Trim(s), 0, |s|);
    }
  }

  /**
   * Trim removes only white space, from both ends, and leaves none there: the
   * result is the text between the leading and the trailing white space.
   */
  lemma {:induction false} TrimStrips(s: string)
    ensures |Trim(s)| <= |s|
    ensures |Trim(s)| > 0 ==> !IsJsSpace(Trim(s)[0]) && !IsJsSpace(Trim(s)[|Trim(s)| - 1])
    ensures Trim(s) == "" <==> forall k :: 0 <= k < |s| ==> IsJsSpace(s[k])
    ensures exists i, j :: TrimmedFrom(s, Trim(s), i, j)
    decreases |s|
  {
    TrimIsInner(s);
    if |s| > 0 && IsJsSpace(s[0]) {
      TrimStrips(s[1..]);
    } else if |s| > 0 && IsJsSpace(s[|s| - 1]) {
      TrimStrips(s[..|s| - 1]);
    }
  }

  /** The decimal digits of `n`, as `String(n)` writes a non-negative integer. */
  function NatToDecimal(n: nat): string
    decreases n
  {
    var digit := (48 + n % 10) as char;
    if n < 10 then [digit] else NatToDecimal(n / 10) + [digit]
  }

  /** The number a string of decimal digits stands for, most significant digit first. */
  function DecimalValue(digits: string): int
    decreases |digits|
  {
    if |digits| == 0 then 0
    else DecimalValue(digits[..|digits| - 1]) * 10 + (digits[|digits| - 1] as int - 48)
  }

  /**
   * The decimal form is a non-empty string of digits that reads back as `n`,
   * with no leading zero except for 0 itself.
   */
  lemma {:induction false} NatToDecimalDigits(n: nat)
    ensures |NatToDecimal(n)| >= 1
    ensures forall k :: 0 <= k < |NatToDecimal(n)| ==> '0' <= NatToDecimal(n)[k] <= '9'
    ensures DecimalValue(NatToDecimal(n)) == n
    ensures NatToDecimal(n)[0] == '0' <==> n == 0
    decreases n
  {
    var digit := (48 + n % 10) as char;
    if n >= 10 {
      NatToDecimalDigits(n / 10);
      var high := NatToDecimal(n / 10);
      assert NatToDecimal(n) == high + [digit];
      assert (high + [digit])[..|high|] == high;
      assert (high + [digit])[0] == high[0];
    } else {
      assert [digit][..0] == [];
    }
  }

  /** `String(n)` for an integer `n`. */
  function IntToDecimal(n: int): string {
    if n < 0 then "-" + NatToDecimal(-n) else NatToDecimal(n)
  }
}
