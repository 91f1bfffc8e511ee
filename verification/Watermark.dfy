/** Which part of a fetched page may be applied yet. */
module Watermark {
  import opened Events

  const PAGE: nat := 200

  /** The longest prefix whose event times do not exceed the cutoff. */
  function EligiblePrefix(batch: seq<Event>, cutoff: int): (r: seq<Event>)
    ensures r <= batch
    ensures forall e :: e in r ==> e.time <= cutoff
    ensures |r| < |batch| ==> batch[|r|].time > cutoff
  {
    if batch == [] || batch[0].time > cutoff then [] else [batch[0]] + EligiblePrefix(batch[1..], cutoff)
  }

  /** A partial page none of whose events is old enough is applied in full. */
  function EligibleBatch(batch: seq<Event>, cutoff: int, watermark: int, limit: nat): (r: seq<Event>)
    ensures r <= batch
  {
    var eligible := EligiblePrefix(batch, cutoff);
    if eligible == [] && 0 < |batch| < limit && watermark > 0 then batch else eligible
  }

  /** What may be applied: the events up to the first that is newer than the cutoff; but a page that is not full and begins
      with a newer one as a whole, unless the watermark is off. */
  lemma EligibleRead(batch: seq<Event>, cutoff: int, watermark: int, limit: nat)
    ensures var r := EligibleBatch(batch, cutoff, watermark, limit);
            if 0 < |batch| < limit && batch[0].time > cutoff && watermark > 0 then r == batch
            else r <= batch && (forall i :: 0 <= i < |r| ==> r[i].time <= cutoff) && (|r| < |batch| ==> batch[|r|].time > cutoff)
  {
  }
}
