/**
 * The ordering helpers of the client's utility header: the clamp used for
 * every cursor index, and the order the file picker lists directory entries in.
 */
module Util {
  import opened ByteStrings

  /** Util::Bound: max(lo, min(v, hi)). */
  function Bound(lo: int, v: int, hi: int): (r: int)
    ensures lo <= hi ==> lo <= r <= hi
    ensures lo <= v <= hi ==> r == v
    ensures v < lo ==> r == lo
    ensures lo <= hi < v ==> r == hi
    ensures hi < lo ==> r == lo
  {
    var inner := if v < hi then v else hi;
    if lo < inner then inner else lo
  }

  /** A directory entry: a name and a size, where size -1 marks a directory. */
  datatype Fileinfo = Fileinfo(name: Bytes, size: int)
  {
    predicate IsDir()
    {
      size == -1
    }

    /** Hidden: an empty name, or one starting with '.' other than "..". */
    predicate IsHidden()
    {
      |name| == 0 || (name[0] == '.' as Byte && name != ['.' as Byte, '.' as Byte])
    }
  }

  /** The default constructor: empty name, size 0. */
  function DefaultFileinfo(): (f: Fileinfo)
    ensures f.IsHidden() && !f.IsDir()
  {
    Fileinfo([], 0)
  }

  /** FileinfoCompare: visible before hidden, then directories before files, then by name. */
  predicate FileinfoCompare(a: Fileinfo, b: Fileinfo)
  {
    if a.IsHidden() != b.IsHidden() then !a.IsHidden()
    else if a.IsDir() != b.IsDir() then a.IsDir()
    else Less(a.name, b.name)
  }

  /** Entries the order cannot tell apart: same name and same kind. */
  predicate SameRank(a: Fileinfo, b: Fileinfo)
  {
    a.name == b.name && a.IsDir() == b.IsDir()
  }

  lemma FileinfoCompareIrreflexive(a: Fileinfo)
    ensures !FileinfoCompare(a, a)
  {
    LessIrreflexive(a.name);
  }

  lemma FileinfoCompareTransitive(a: Fileinfo, b: Fileinfo, c: Fileinfo)
    requires FileinfoCompare(a, b) && FileinfoCompare(b, c)
    ensures FileinfoCompare(a, c)
  {
    if a.IsHidden() == b.IsHidden() == c.IsHidden() && a.IsDir() == b.IsDir() == c.IsDir() {
      LessTransitive(a.name, b.name, c.name);
    }
  }

  /**
   * Two entries are incomparable exactly when they have the same name and
   * kind; that relation is an equivalence, so the order is a strict weak
   * ordering, as std::set<Fileinfo, FileinfoCompare> requires of its comparator.
   */
  lemma FileinfoIncomparable(a: Fileinfo, b: Fileinfo)
    ensures !FileinfoCompare(a, b) && !FileinfoCompare(b, a) <==> SameRank(a, b)
  {
    if SameRank(a, b) {
      LessIrreflexive(a.name);
    } else if a.IsHidden() == b.IsHidden() && a.IsDir() == b.IsDir() {
      LessTotal(a.name, b.name);
    }
  }
}
