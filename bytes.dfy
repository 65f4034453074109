/**
 * Byte strings as std::string holds them, and the order std::string's
 * operator< puts them in: lexicographic over unsigned bytes, with a proper
 * prefix sorting first.
 */
module ByteStrings {

  type Byte = bv8
  type Bytes = seq<Byte>

  const Space: Byte := 0x20

  /** std::string operator< */
  predicate Less(a: Bytes, b: Bytes)
  {
    if |a| == 0 then |b| > 0
    else if |b| == 0 then false
    else if a[0] != b[0] then a[0] < b[0]
    else Less(a[1..], b[1..])
  }

  predicate IsPrefix(a: Bytes, b: Bytes)
  {
    |a| <= |b| && b[..|a|] == a
  }

  lemma {:induction false} LessIrreflexive(a: Bytes)
    ensures !Less(a, a)
  {
    if |a| > 0 {
      LessIrreflexive(a[1..]);
    }
  }

  lemma {:induction false} LessAsymmetric(a: Bytes, b: Bytes)
    ensures Less(a, b) ==> !Less(b, a)
  {
    if |a| > 0 && |b| > 0 && a[0] == b[0] {
      LessAsymmetric(a[1..], b[1..]);
    }
  }

  lemma {:induction false} LessTransitive(a: Bytes, b: Bytes, c: Bytes)
    requires Less(a, b) && Less(b, c)
    ensures Less(a, c)
  {
    if |a| > 0 && |b| > 0 && |c| > 0 && a[0] == b[0] && b[0] == c[0] {
      LessTransitive(a[1..], b[1..], c[1..]);
    }
  }

  /** Two different strings are always ordered one way or the other. */
  lemma {:induction false} LessTotal(a: Bytes, b: Bytes)
    requires a != b
    ensures Less(a, b) || Less(b, a)
  {
    if |a| > 0 && |b| > 0 && a[0] == b[0] {
      assert a == [a[0]] + a[1..] && b == [b[0]] + b[1..];
      LessTotal(a[1..], b[1..]);
    }
  }

  /** A proper prefix sorts first. */
  lemma {:induction false} PrefixLess(a: Bytes, b: Bytes)
    requires IsPrefix(a, b) && a != b
    ensures Less(a, b)
  {
    if |a| > 0 {
      assert a[1..] == b[1..][..|a| - 1];
      PrefixLess(a[1..], b[1..]);
    }
  }

  /**
   * When neither string is a prefix of the other, the order is decided at
   * their first difference, and appending anything to either keeps it.
   */
  lemma {:induction false} LessAppend(a: Bytes, b: Bytes, x: Bytes, y: Bytes)
    requires Less(a, b) && !IsPrefix(a, b)
    ensures Less(a + x, b + y) && !IsPrefix(a + x, b + y)
  {
    assert |a| > 0;
    if |b| > 0 && a[0] == b[0] {
      assert (a + x)[1..] == a[1..] + x && (b + y)[1..] == b[1..] + y;
      LessAppend(a[1..], b[1..], x, y);
    } else {
      assert (a + x)[0] != (b + y)[0];
    }
  }

  /** The complement of every byte: what bit-inverting a key does to it. */
  function Complement(s: Bytes): (r: Bytes)
    ensures |r| == |s|
    ensures forall i :: 0 <= i < |s| ==> r[i] == !s[i]
  {
    seq(|s|, i requires 0 <= i < |s| => !s[i])
  }

  lemma ComplementInvolutive(s: Bytes)
    ensures Complement(Complement(s)) == s
  {
  }

  /**
   * Byte complement reverses the order of two strings that differ at some
   * position inside both of them.
   */
  lemma {:induction false} ComplementReverses(a: Bytes, b: Bytes)
    requires Less(a, b) && !IsPrefix(a, b)
    ensures Less(Complement(b), Complement(a)) && !IsPrefix(Complement(b), Complement(a))
  {
    var ca, cb := Complement(a), Complement(b);
    assert |a| > 0;
    if |b| > 0 && a[0] == b[0] {
      ComplementReverses(a[1..], b[1..]);
      assert Complement(a[1..]) == ca[1..] && Complement(b[1..]) == cb[1..];
    } else {
      assert |b| > 0;
    }
  }

  /** A proper prefix keeps sorting first after both are complemented. */
  lemma ComplementKeepsPrefixOrder(a: Bytes, b: Bytes)
    requires IsPrefix(a, b) && a != b
    ensures Less(Complement(a), Complement(b))
  {
    assert Complement(b)[..|a|] == Complement(a);
    PrefixLess(Complement(a), Complement(b));
  }
}
