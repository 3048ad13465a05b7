/**
 * Small value types shared by every part of the model.
 */
module Common {

  /** A value that may be absent: JavaScript `null`/`undefined` on one side, a value on the other. */
  datatype Option<T> = None | Some(value: T)

  /**
   * A completion rate kept as an exact fraction `num / den` instead of a
   * floating-point number; a rate the source reports as the number 0 for an
   * empty input is `Ratio(0, 1)`.
   */
  datatype Ratio = Ratio(num: nat, den: nat)

  function Max(a: int, b: int): int {
    if a < b then b else a
  }

  /** The number of `true` entries of a sequence of flags. */
  function CountTrue(f: seq<bool>): (n: nat)
    ensures n <= |f|
    ensures n == |f| <==> forall k :: 0 <= k < |f| ==> f[k]
    ensures n == 0 <==> forall k :: 0 <= k < |f| ==> !f[k]
  {
    if f == [] then 0
    else (if f[|f| - 1] then 1 else 0) + CountTrue(f[..|f| - 1])
  }

  /** `CountTrue` counts the indices whose flag is set. */
  lemma {:induction false} CountTrueIsIndexCount(f: seq<bool>)
    ensures CountTrue(f) == |set i | 0 <= i < |f| && f[i]|
  {
    if f != [] {
      var p := f[..|f| - 1];
      CountTrueIsIndexCount(p);
      var before := set i | 0 <= i < |p| && p[i];
      assert before == set i | 0 <= i < |f| - 1 && f[i];
      if f[|f| - 1] {
        assert (set i | 0 <= i < |f| && f[i]) == before + {|f| - 1};
      } else {
        assert (set i | 0 <= i < |f| && f[i]) == before;
      }
    }
  }

  /** `new Map(s.map((x) => [key(x), x]))`: a later element with the same key replaces an earlier one. */
  function IndexBy<T>(s: seq<T>, key: T -> int): map<int, T> {
    if s == [] then map[]
    else IndexBy(s[..|s| - 1], key)[key(s[|s| - 1]) := s[|s| - 1]]
  }

  /** The map's keys are exactly the keys of the elements, and each key maps to an element with that key. */
  lemma {:induction false} IndexByHoldsKeys<T>(s: seq<T>, key: T -> int)
    ensures forall k :: k in IndexBy(s, key) <==> exists i :: 0 <= i < |s| && key(s[i]) == k
    ensures forall k :: k in IndexBy(s, key) ==> key(IndexBy(s, key)[k]) == k
  {
    if s != [] {
      var init := s[..|s| - 1];
      IndexByHoldsKeys(init, key);
      forall k | k in IndexBy(init, key) ensures exists i :: 0 <= i < |s| && key(s[i]) == k {
        var i :| 0 <= i < |init| && key(init[i]) == k;
        assert key(s[i]) == k;
      }
      forall i | 0 <= i < |init| ensures key(init[i]) in IndexBy(init, key) {
        assert key(init[i]) == key(init[i]);
      }
    }
  }

  /** Each key maps to the last element with that key. */
  lemma {:induction false} IndexByKeepsLast<T>(s: seq<T>, key: T -> int, i: int)
    requires 0 <= i < |s| && forall j :: i < j < |s| ==> key(s[j]) != key(s[i])
    ensures key(s[i]) in IndexBy(s, key) && IndexBy(s, key)[key(s[i])] == s[i]
  {
    var init := s[..|s| - 1];
    if i < |init| {
      assert s[i] == init[i];
      assert forall j :: i < j < |init| ==> init[j] == s[j];
      IndexByKeepsLast(init, key, i);
    }
  }

  /** The decimal digit character of a value below 10. */
  function DigitChar(d: nat): (c: char)
    requires d < 10
    ensures '0' <= c <= '9'
  {
    (d + '0' as int) as char
  }

  /** JavaScript's rendering of a non-negative integer in a template literal. */
  function NatText(n: nat): (s: string)
    ensures |s| >= 1
    ensures forall k :: 0 <= k < |s| ==> '0' <= s[k] <= '9'
    ensures |s| > 1 ==> s[0] != '0'
  {
    if n < 10 then [DigitChar(n)] else NatText(n / 10) + [DigitChar(n % 10)]
  }

  /** The value of a string of decimal digits, read left to right. */
  function DecimalValue(s: string): int {
    if s == [] then 0
    else DecimalValue(s[..|s| - 1]) * 10 + (s[|s| - 1] as int - '0' as int)
  }

  /** The rendered digits read back as the number. */
  lemma {:induction false} NatTextRoundTrip(n: nat)
    ensures DecimalValue(NatText(n)) == n
  {
    if n >= 10 {
      NatTextRoundTrip(n / 10);
      var s := NatText(n);
      assert s[..|s| - 1] == NatText(n / 10);
    }
  }

  /** An integer in a template literal: a minus sign before a negative value. */
  function IntText(n: int): (s: string)
    ensures n >= 0 ==> s == NatText(n)
    ensures n < 0 ==> s == "-" + NatText(-n)
  {
    if n >= 0 then NatText(n) else "-" + NatText(-n)
  }

  /**
   * The UTF-16 code units of one character. JavaScript strings store a
   * character outside the Basic Multilingual Plane as a surrogate pair.
   */
  function CodeUnits(c: char): (n: nat)
    ensures n == 1 || n == 2
    ensures n == 1 <==> c as int < 0x1_0000
  {
    if c as int < 0x1_0000 then 1 else 2
  }

  /** JavaScript's `length` of a text: its number of UTF-16 code units. */
  function Utf16Length(s: string): (n: nat)
    ensures |s| <= n <= 2 * |s|
    ensures s != [] ==> n > 0
  {
    if s == [] then 0 else CodeUnits(s[0]) + Utf16Length(s[1..])
  }

  lemma {:induction false} Utf16LengthOfConcat(a: string, b: string)
    ensures Utf16Length(a + b) == Utf16Length(a) + Utf16Length(b)
  {
    if a != [] {
      var ab := a + b;
      assert ab[0] == a[0] && ab[1..] == a[1..] + b;
      Utf16LengthOfConcat(a[1..], b);
      assert Utf16Length(ab) == CodeUnits(a[0]) + Utf16Length(a[1..] + b);
    } else {
      assert a + b == b;
    }
  }

  /** Inside the Basic Multilingual Plane the UTF-16 length is the number of characters. */
  lemma {:induction false} PlaneLength(s: string)
    requires forall i :: 0 <= i < |s| ==> CodeUnits(s[i]) == 1
    ensures Utf16Length(s) == |s|
  {
    if s != [] {
      assert forall i :: 0 <= i < |s[1..]| ==> s[1..][i] == s[i + 1];
      PlaneLength(s[1..]);
    }
  }

  /**
   * The longest head of `s` made of whole characters that fits in `n`
   * code units: the text is kept when it fits, and otherwise the next
   * character would overflow `n`.
   */
  function CutUnits(s: string, n: nat): (head: string)
    ensures head <= s && Utf16Length(head) <= n
    ensures Utf16Length(s) <= n ==> head == s
    ensures Utf16Length(s) > n ==> |head| < |s| && Utf16Length(head) + CodeUnits(s[|head|]) > n
  {
    if s == [] || CodeUnits(s[0]) > n then []
    else
      var rest := CutUnits(s[1..], n - CodeUnits(s[0]));
      assert ([s[0]] + rest)[1..] == rest;
      [s[0]] + rest
  }

  /** Inside the Basic Multilingual Plane the cut is `slice(0, n)`. */
  lemma PlaneCut(s: string, n: nat)
    requires forall i :: 0 <= i < |s| ==> CodeUnits(s[i]) == 1
    ensures n <= |s| ==> CutUnits(s, n) == s[..n]
    ensures n > |s| ==> CutUnits(s, n) == s
  {
    PlaneLength(s);
    var head := CutUnits(s, n);
    assert forall i :: 0 <= i < |head| ==> CodeUnits(head[i]) == 1;
    PlaneLength(head);
  }
}
