/** The transcript segment shared by the pipeline worker's stages. */
module Schemas {

  /** Seconds and texts of one utterance; `target` stays empty until translation fills it. */
  datatype Segment = Segment(start: real, end: real, source: string, target: string) {
    /** What the pydantic model demands of every segment it builds. */
    predicate Valid() {
      start >= 0.0 && end >= 0.0 && source != ""
    }
  }

  /** In time order and never overlapping. */
  ghost predicate Chronological(segs: seq<Segment>) {
    && (forall i | 0 <= i < |segs| :: segs[i].start <= segs[i].end)
    && (forall i, j | 0 <= i < j < |segs| :: segs[i].end <= segs[j].start)
  }

  /** Concatenation is associative, stated for one triple at a time. */
  lemma Assoc<T>(a: seq<T>, b: seq<T>, c: seq<T>)
    ensures (a + b) + c == a + (b + c)
  {
  }

  lemma SliceOfSlice<T>(s: seq<T>, i: nat, p: nat, q: nat, j: nat)
    requires i <= p <= q <= j <= |s|
    ensures s[i..j][p - i..q - i] == s[p..q]
  {
    var outer := s[i..j];
    var inner := outer[p - i..q - i];
    forall k | 0 <= k < |inner| ensures inner[k] == s[p..q][k] {
      assert inner[k] == outer[p - i + k] == s[p + k];
    }
  }
}
