/** Shared vocabulary of the model: failure-compatible wrappers for Java's
    null and exceptions, Java's 32-bit `int`, and the handful of
    java.lang.String / java.lang.Integer behaviours the server relies on
    (`isBlank`, `trim`, `split(",")`, `Integer.toString`, `Integer.parseInt`). */
module Common {

  /** A Java reference that may be null. */
  datatype Option<+T> = None | Some(value: T)

  /** An exception that escapes the code that raised it, with its message. */
  datatype Failure = Failure(message: string)

  /** Either a value or a thrown exception; usable with `:-`. */
  datatype Result<+T> = Ok(value: T) | Err(failure: Failure) {
    predicate IsFailure() { Err? }

    function PropagateFailure<U>(): Result<U>
      requires Err?
    {
      Err(failure)
    }

    function Extract(): T
      requires Ok?
    {
      value
    }
  }

  // ---------------------------------------------------------------- int

  const INT_MIN: int := -0x8000_0000
  const INT_MAX: int := 0x7fff_ffff

  /** Java's `int`. */
  type Int32 = x: int | INT_MIN <= x <= INT_MAX

  /** Java's narrowing of a wider integer to `int`: keep the low 32 bits,
      read them as two's complement. */
  function Wrap32(n: int): (r: Int32)
    ensures (r - n) % 0x1_0000_0000 == 0
    ensures INT_MIN <= n <= INT_MAX ==> r == n
  {
    var m := n % 0x1_0000_0000;
    if m <= INT_MAX then m else m - 0x1_0000_0000
  }

  // ------------------------------------------------------------- blanks

  /** `Character.isWhitespace`: the ASCII controls TAB..CR and FS..US, and the
      Unicode space, line and paragraph separators other than the no-break
      spaces U+00A0, U+2007 and U+202F. */
  predicate IsWhitespace(c: char) {
    || ('\t' <= c <= '\r')
    || ('\U{1C}' <= c <= '\U{1F}')
    || c == ' '
    || c == '\U{1680}'
    || ('\U{2000}' <= c <= '\U{2006}')
    || ('\U{2008}' <= c <= '\U{200A}')
    || c == '\U{2028}'
    || c == '\U{2029}'
    || c == '\U{205F}'
    || c == '\U{3000}'
  }

  /** `String.isBlank`: empty or whitespace only. */
  predicate IsBlank(s: string): (b: bool)
    ensures |s| == 0 ==> b
    ensures !b <==> exists i :: 0 <= i < |s| && !IsWhitespace(s[i])
  {
    forall i :: 0 <= i < |s| ==> IsWhitespace(s[i])
  }

  // --------------------------------------------------------------- trim

  function TrimStart(s: string): (r: string)
    ensures |r| <= |s|
    ensures s != [] && s[0] > ' ' ==> r == s
  {
    if |s| > 0 && s[0] <= ' ' then TrimStart(s[1..]) else s
  }

  function TrimEnd(s: string): (r: string)
    ensures |r| <= |s|
    ensures s != [] && s[|s| - 1] > ' ' ==> r == s
  {
    if |s| > 0 && s[|s| - 1] <= ' ' then TrimEnd(s[..|s| - 1]) else s
  }

  /** `String.trim`: drop every leading and trailing character up to U+0020. */
  function Trim(s: string): string {
    TrimEnd(TrimStart(s))
  }

  /** `s` is `r` with characters up to U+0020 before position `k` and after it. */
  predicate PaddedAt(s: string, r: string, k: int) {
    && 0 <= k <= |s| - |r| && s[k..k + |r|] == r
    && (forall i :: 0 <= i < k ==> s[i] <= ' ')
    && (forall i :: k + |r| <= i < |s| ==> s[i] <= ' ')
  }

  lemma {:induction false} TrimStartDrops(s: string)
    ensures var r := TrimStart(s);
            && PaddedAt(s, r, |s| - |r|)
            && (r == [] || r[0] > ' ')
  {
    var r := TrimStart(s);
    if |s| > 0 && s[0] <= ' ' {
      var tail := s[1..];
      TrimStartDrops(tail);
      assert r == TrimStart(tail);
      var k := |s| - |r|;
      assert tail[k - 1..k - 1 + |r|] == r;
      assert s[k..k + |r|] == tail[k - 1..k - 1 + |r|];
      forall i | 0 <= i < k
        ensures s[i] <= ' '
      {
        if i > 0 {
          assert s[i] == tail[i - 1];
        }
      }
    } else {
      assert r == s && s[0..|s|] == s;
    }
  }

  lemma {:induction false} TrimEndDrops(s: string)
    ensures var r := TrimEnd(s);
            && PaddedAt(s, r, 0)
            && (r == [] || r[|r| - 1] > ' ')
  {
    if |s| > 0 && s[|s| - 1] <= ' ' {
      TrimEndDrops(s[..|s| - 1]);
      var r := TrimEnd(s);
      assert s[..|s| - 1][..|r|] == s[..|r|];
    }
  }

  /** Padding an already padded string pads the inner one. */
  lemma PaddedCompose(s: string, t: string, r: string, k: int)
    requires PaddedAt(s, t, k) && PaddedAt(t, r, 0)
    ensures PaddedAt(s, r, k)
  {
    assert s[k..k + |r|] == s[k..k + |t|][..|r|];
    forall i | k + |r| <= i < |s|
      ensures s[i] <= ' '
    {
      if i < k + |t| {
        assert s[i] == s[k..k + |t|][i - k];
      }
    }
  }

  /** What `trim` leaves: `s` without the characters up to U+0020 at both
      ends, so that it neither starts nor ends with one. */
  lemma TrimMeaning(s: string)
    ensures var r := Trim(s);
            && (r == [] || (r[0] > ' ' && r[|r| - 1] > ' '))
            && exists k :: PaddedAt(s, r, k)
  {
    var t := TrimStart(s);
    var r := TrimEnd(t);
    TrimStartDrops(s);
    TrimEndDrops(t);
    PaddedCompose(s, t, r, |s| - |t|);
    if r != [] {
      assert r[0] == t[0];
    }
  }

  // -------------------------------------------------------------- split

  /** The position of the first `c` in `s`. */
  function IndexOf(s: string, c: char): (i: nat)
    requires c in s
    ensures i < |s| && s[i] == c && c !in s[..i]
  {
    if s[0] == c then 0
    else
      var i := 1 + IndexOf(s[1..], c);
      assert s[..i] == [s[0]] + s[1..][..i - 1];
      i
  }

  /** The pieces of `s` between occurrences of `sep`, empty pieces included. */
  function Fields(s: string, sep: char): (r: seq<string>)
    ensures |r| >= 1
    decreases |s|
  {
    if sep !in s then [s]
    else
      var i := IndexOf(s, sep);
      [s[..i]] + Fields(s[i + 1..], sep)
  }

  /** Drop the empty strings at the end of a list of pieces. */
  function DropTrailingEmpty(parts: seq<string>): (r: seq<string>)
    ensures |r| <= |parts| && r == parts[..|r|]
    ensures r == [] || r[|r| - 1] != ""
  {
    if parts != [] && parts[|parts| - 1] == "" then DropTrailingEmpty(parts[..|parts| - 1])
    else parts
  }

  /** `String.split` with a one-character separator and no limit: the input
      itself when the separator does not occur, otherwise its pieces with the
      trailing empty ones removed. */
  function Split(s: string, sep: char): seq<string> {
    if sep !in s then [s] else DropTrailingEmpty(Fields(s, sep))
  }

  lemma {:induction false} FieldsAreFree(s: string, sep: char)
    ensures forall i :: 0 <= i < |Fields(s, sep)| ==> sep !in Fields(s, sep)[i]
    decreases |s|
  {
    if sep in s {
      var i := IndexOf(s, sep);
      FieldsAreFree(s[i + 1..], sep);
    }
  }

  /** What `split` yields: the input when the separator is absent;
      otherwise pieces free of it, the last one non-empty. */
  lemma SplitMeaning(s: string, sep: char)
    ensures sep !in s ==> Split(s, sep) == [s]
    ensures forall i :: 0 <= i < |Split(s, sep)| ==> sep !in Split(s, sep)[i]
    ensures sep in s ==> Split(s, sep) == [] || Split(s, sep)[|Split(s, sep)| - 1] != ""
  {
    if sep in s {
      FieldsAreFree(s, sep);
      var f := Fields(s, sep);
      var r := DropTrailingEmpty(f);
      assert forall i :: 0 <= i < |r| ==> r[i] == f[i];
    }
  }

  // ------------------------------------------------- Integer.toString

  predicate IsDigit(c: char) { '0' <= c <= '9' }

  predicate AllDigits(s: string) {
    forall i :: 0 <= i < |s| ==> IsDigit(s[i])
  }

  function DigitChar(d: nat): (c: char)
    requires d < 10
    ensures IsDigit(c)
  {
    ('0' as int + d) as char
  }

  /** Decimal digits of a natural number, most significant first, no leading zero. */
  function NatToString(n: nat): (s: string)
    ensures |s| >= 1 && AllDigits(s)
  {
    if n < 10 then [DigitChar(n)] else NatToString(n / 10) + [DigitChar(n % 10)]
  }

  /** `Integer.toString` / string concatenation of an `int`. */
  function IntToString(n: int): (s: string)
    ensures |s| >= 1
    ensures forall i :: 0 <= i < |s| ==> IsDigit(s[i]) || (i == 0 && s[i] == '-')
  {
    if n < 0 then "-" + NatToString(-n) else NatToString(n)
  }

  // ------------------------------------------------- Integer.parseInt

  /** The value of a string of decimal digits. */
  function DigitsValue(s: string): nat
    requires AllDigits(s)
  {
    if s == [] then 0 else 10 * DigitsValue(s[..|s| - 1]) + (s[|s| - 1] as int - '0' as int)
  }

  /** `Integer.parseInt(s)`: an optional sign followed by at least one decimal
      digit whose value fits in an `int`; anything else raises
      NumberFormatException, modelled as None. */
  function ParseInt(s: string): Option<Int32> {
    if |s| == 0 then None
    else
      var digits := if s[0] == '-' || s[0] == '+' then s[1..] else s;
      if |digits| == 0 || !AllDigits(digits) then None
      else
        var v: int := if s[0] == '-' then -(DigitsValue(digits) as int) else DigitsValue(digits);
        if INT_MIN <= v <= INT_MAX then Some(v) else None
  }

  /** What `parseInt` accepts: a sign or a digit, then digits only; the
      sign decides the sign of the value. */
  lemma ParseIntMeaning(s: string)
    ensures ParseInt(s).Some? ==> |s| >= 1 && (s[0] == '-' || s[0] == '+' || IsDigit(s[0]))
    ensures ParseInt(s).Some? ==> forall i :: 1 <= i < |s| ==> IsDigit(s[i])
    ensures ParseInt(s).Some? && s[0] == '-' ==> ParseInt(s).value <= 0
    ensures ParseInt(s).Some? && s[0] != '-' ==> ParseInt(s).value >= 0
  {
    if ParseInt(s).Some? && s[0] != '-' && s[0] != '+' {
      assert IsDigit(s[0]);
    }
  }

  lemma {:induction false} DigitsValueOfNatToString(n: nat)
    ensures DigitsValue(NatToString(n)) == n
  {
    if n >= 10 {
      var s := NatToString(n);
      var prefix := NatToString(n / 10);
      assert s == prefix + [DigitChar(n % 10)];
      assert s[..|s| - 1] == prefix;
      DigitsValueOfNatToString(n / 10);
    }
  }

  /** Parsing undoes printing for every `int`. */
  lemma ParseIntToString(n: Int32)
    ensures ParseInt(IntToString(n)) == Some(n)
  {
    var s := IntToString(n);
    if n < 0 {
      var digits := NatToString(-(n as int));
      assert s == "-" + digits && s[0] == '-' && s[1..] == digits;
      DigitsValueOfNatToString(-(n as int));
      assert DigitsValue(digits) == -(n as int);
    } else {
      assert s == NatToString(n) && IsDigit(s[0]);
      DigitsValueOfNatToString(n);
      assert DigitsValue(s) == n;
    }
  }

  // -------------------------------------------------------- sequences

  /** The elements of `s` that satisfy `keep`, in their order. */
  function Filter<T>(s: seq<T>, keep: T -> bool): (r: seq<T>)
    ensures |r| <= |s|
    ensures forall i :: 0 <= i < |r| ==> keep(r[i]) && r[i] in s
    ensures forall i :: 0 <= i < |s| && keep(s[i]) ==> s[i] in r
  {
    if s == [] then []
    else
      var init := s[..|s| - 1];
      var r := Filter(init, keep) + (if keep(s[|s| - 1]) then [s[|s| - 1]] else []);
      assert forall i :: 0 <= i < |s| - 1 ==> s[i] == init[i];
      r
  }

  /** Filtering distributes over concatenation: what passes from `a` comes
      before what passes from `b`, so the filter keeps the order of `s`. */
  lemma {:induction false} FilterAppend<T>(a: seq<T>, b: seq<T>, keep: T -> bool)
    ensures Filter(a + b, keep) == Filter(a, keep) + Filter(b, keep)
  {
    if b == [] {
      assert a + b == a;
    } else {
      var init := b[..|b| - 1];
      var x := b[|b| - 1];
      assert (a + b)[..|a + b| - 1] == a + init;
      assert (a + b)[|a + b| - 1] == x;
      FilterAppend(a, init, keep);
    }
  }

  /** A single element passes exactly when it satisfies `keep`. */
  lemma FilterSingleton<T>(x: T, keep: T -> bool)
    ensures Filter([x], keep) == if keep(x) then [x] else []
  {
    assert [x][..0] == [];
  }

  /** Each element that passes keeps its multiplicity; the others are gone. */
  lemma {:induction false} FilterCounts<T>(s: seq<T>, keep: T -> bool, x: T)
    ensures multiset(Filter(s, keep))[x] == if keep(x) then multiset(s)[x] else 0
  {
    if s != [] {
      var init := s[..|s| - 1];
      var last := s[|s| - 1];
      assert s == init + [last];
      FilterCounts(init, keep, x);
    }
  }

  /** The position of the first element of `s` that satisfies `p`, if any:
      what `rs.next()` yields first on a scan in table order. */
  function FindFirst<T>(s: seq<T>, p: T -> bool): (r: Option<nat>)
    ensures r.None? <==> forall i :: 0 <= i < |s| ==> !p(s[i])
    ensures r.Some? ==> r.value < |s| && p(s[r.value])
    ensures r.Some? ==> forall i :: 0 <= i < r.value ==> !p(s[i])
  {
    if s == [] then None
    else if p(s[0]) then Some(0)
    else match FindFirst(s[1..], p)
      case None => None
      case Some(i) => Some(i + 1)
  }

  /** `f` applied to each element of `s`, in order. */
  function Map<T, U>(s: seq<T>, f: T -> U): (r: seq<U>)
    ensures |r| == |s|
    ensures forall i :: 0 <= i < |s| ==> r[i] == f(s[i])
  {
    seq(|s|, i requires 0 <= i < |s| => f(s[i]))
  }

  /** A non-empty set of integers has a member to pick. */
  lemma NonEmptyHasMember(s: set<int>)
    requires s != {}
    ensures exists x :: x in s
  {
    if forall x :: x !in s {
      assert false;
    }
  }
}
