/**
 * One concrete choice of the key helpers: a decimal zero pad and a byte
 * complement. It shows that the assumptions the display index relies on
 * can be met, and what they ask of the real helpers.
 */
module StandardTextFns {
  import opened ByteStrings
  import opened MailTypes
  import opened DisplayKeys

  /** The ASCII digits '0'..'9'. */
  const DigitBytes: seq<Byte> := [0x30, 0x31, 0x32, 0x33, 0x34, 0x35, 0x36, 0x37, 0x38, 0x39]

  predicate IsDigitSeq(ds: seq<int>)
  {
    forall i :: 0 <= i < |ds| ==> 0 <= ds[i] < 10
  }

  /** The decimal digits of n, most significant first, without leading zeros. */
  function Digits(n: nat): (ds: seq<int>)
    ensures |ds| >= 1 && IsDigitSeq(ds)
  {
    if n < 10 then [n] else Digits(n / 10) + [n % 10]
  }

  /** The number a digit sequence spells. */
  function DigitsValue(ds: seq<int>): int
  {
    if |ds| == 0 then 0 else DigitsValue(ds[..|ds| - 1]) * 10 + ds[|ds| - 1]
  }

  /** n in decimal, left-padded with zeros to at least w digits. */
  function PaddedDigits(n: nat, w: nat): (ds: seq<int>)
    ensures IsDigitSeq(ds) && |ds| >= w
  {
    var d := Digits(n);
    if |d| >= w then d else seq(w - |d|, _ => 0) + d
  }

  /** Util::ZeroPad as the digits' ASCII bytes. */
  function ZeroPad(n: nat, w: nat): (r: Bytes)
    ensures |r| == |PaddedDigits(n, w)|
    ensures forall i :: 0 <= i < |r| ==> r[i] == DigitBytes[PaddedDigits(n, w)[i]]
  {
    var ds := PaddedDigits(n, w);
    seq(|ds|, i requires 0 <= i < |ds| => DigitBytes[ds[i]])
  }

  lemma {:induction false} ValueOfDigits(n: nat)
    ensures DigitsValue(Digits(n)) == n
  {
    if n >= 10 {
      var d := Digits(n);
      assert d[..|d| - 1] == Digits(n / 10);
      ValueOfDigits(n / 10);
    }
  }

  lemma {:induction false} LeadingZerosIgnored(z: seq<int>, ds: seq<int>)
    requires forall i :: 0 <= i < |z| ==> z[i] == 0
    ensures DigitsValue(z + ds) == DigitsValue(ds)
  {
    if |ds| == 0 {
      assert z + ds == z;
      if |z| > 0 {
        LeadingZerosIgnored(z[..|z| - 1], []);
        assert z[..|z| - 1] + [] == z[..|z| - 1];
      }
    } else {
      assert (z + ds)[..|z + ds| - 1] == z + ds[..|ds| - 1];
      LeadingZerosIgnored(z, ds[..|ds| - 1]);
    }
  }

  lemma PaddedValue(n: nat, w: nat)
    ensures DigitsValue(PaddedDigits(n, w)) == n
  {
    var d := Digits(n);
    ValueOfDigits(n);
    if |d| < w {
      LeadingZerosIgnored(seq(w - |d|, _ => 0), d);
    }
  }

  lemma DigitBytesDistinct(d: int, e: int)
    requires 0 <= d < 10 && 0 <= e < 10
    ensures DigitBytes[d] != Space
    ensures DigitBytes[d] == DigitBytes[e] ==> d == e
  {
  }

  /** Different numbers never pad to the same bytes, and no digit is a space. */
  lemma ZeroPadInjective(u: nat, v: nat, w: nat)
    ensures Space !in ZeroPad(u, w)
    ensures ZeroPad(u, w) == ZeroPad(v, w) ==> u == v
  {
    var du, dv := PaddedDigits(u, w), PaddedDigits(v, w);
    forall i | 0 <= i < |du|
      ensures ZeroPad(u, w)[i] != Space
    {
      DigitBytesDistinct(du[i], du[i]);
    }
    if ZeroPad(u, w) == ZeroPad(v, w) {
      forall i | 0 <= i < |du|
        ensures du[i] == dv[i]
      {
        DigitBytesDistinct(du[i], dv[i]);
      }
      assert du == dv;
      PaddedValue(u, w);
      PaddedValue(v, w);
    }
  }

  function StandardFns(): TextFns
  {
    TextFns((u: Uid) => ZeroPad(u, 7), s => Complement(s), s => s, s => s)
  }

  /** The assumptions made of the key helpers are met by this choice. */
  lemma StandardFnsAssumed()
    ensures KeyFnsAssumed(StandardFns())
    ensures InvertReversesOrder(StandardFns())
  {
    var fns := StandardFns();
    forall u: Uid
      ensures Space !in fns.zeroPad7(u)
    {
      ZeroPadInjective(u, u, 7);
    }
    forall u: Uid, v: Uid | fns.zeroPad7(u) == fns.zeroPad7(v)
      ensures u == v
    {
      ZeroPadInjective(u, v, 7);
    }
    forall s, t | fns.bitInvert(s) == fns.bitInvert(t)
      ensures s == t
    {
      ComplementInvolutive(s);
      ComplementInvolutive(t);
    }
    forall a, b | Less(a, b) && !IsPrefix(a, b)
      ensures Less(fns.bitInvert(b), fns.bitInvert(a))
    {
      ComplementReverses(a, b);
    }
  }
}
