/** TagHint: a local, possibly stale, mirror of each bucket's fingerprints. */
module TagHints {
  const ROW: nat := 8
  const TAG_LIMIT: nat := 0x1_0000_0000

  /** `rows[b]` holds the eight tags of bucket `b`; tag 0 means empty. */
  datatype TagHint = TagHint(rows: seq<seq<nat>>)

  ghost predicate WellFormed(h: TagHint) {
    forall b :: 0 <= b < |h.rows| ==> |h.rows[b]| == ROW
  }

  function FpToTag(fp: nat): (t: nat)
    ensures 0 < t < TAG_LIMIT
  {
    var t := fp % TAG_LIMIT;
    if t == 0 then 1 else t
  }

  function Fresh(total: nat): (h: TagHint)
    ensures WellFormed(h)
    ensures forall b: nat, fp: nat :: b < total ==> !Test(h, b, fp)
  {
    var row := seq(ROW, s => 0);
    TagHint(seq(total, b => row))
  }

  /** An out-of-range bucket is reported as a possible match. */
  predicate Test(h: TagHint, b: nat, fp: nat) {
    b < |h.rows| ==> FpToTag(fp) in h.rows[b]
  }

  function Set(h: TagHint, b: nat, s: nat, fp: nat): (r: TagHint)
    ensures |r.rows| == |h.rows|
    ensures WellFormed(h) ==> WellFormed(r) && (s < ROW ==> Test(r, b, fp))
    ensures forall c :: 0 <= c < |h.rows| && c != b ==> r.rows[c] == h.rows[c]
  {
    if b < |h.rows| && s < |h.rows[b]| then
      var row := h.rows[b][s := FpToTag(fp)];
      assert row[s] == FpToTag(fp);
      TagHint(h.rows[b := row])
    else h
  }

  function Clear(h: TagHint, b: nat, s: nat): (r: TagHint)
    ensures |r.rows| == |h.rows|
    ensures WellFormed(h) ==> WellFormed(r)
    ensures forall c :: 0 <= c < |h.rows| && c != b ==> r.rows[c] == h.rows[c]
  {
    if b < |h.rows| && s < |h.rows[b]| then TagHint(h.rows[b := h.rows[b][s := 0]]) else h
  }
}
