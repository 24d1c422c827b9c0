/** A supply has one outcome: whether it commits, and otherwise which limit it reports, is
    fixed by the store, the response and what the allocators grant, although the new segment
    list is only known by its content (pdf-rs/bytes/src/store.rs, lines 547-729). */
module SupplyOutcome {
  import opened Basics
  import opened Ranges
  import opened Segments
  import opened Coalesce
  import opened StoreSpec
  import opened StoreInv

  ghost predicate Fits(segs: seq<Segment>) { Sorted(segs) && LastEnd(segs) <= U64_MAX }

  /** The offsets of each segment. */
  ghost function Extents(segs: seq<Segment>): (rs: seq<Range>)
    requires Fits(segs)
    ensures |rs| == |segs|
    ensures forall i :: 0 <= i < |segs| ==> rs[i] == ByteRange(segs[i].start, segs[i].end - segs[i].start)
  {
    SortedPairwise(segs);
    seq(|segs|, i requires 0 <= i < |segs| => ByteRange(segs[i].start, segs[i].end - segs[i].start))
  }

  lemma ExtentsFacts(segs: seq<Segment>)
    requires Fits(segs)
    ensures Canonical(Extents(segs)) && forall k: nat :: Hit(Extents(segs), k) <==> Has(segs, k)
  {
    SortedPairwise(segs);
    forall k: nat ensures Hit(Extents(segs), k) <==> Has(segs, k) {
      if Has(segs, k) {
        var i :| 0 <= i < |segs| && segs[i].Contains(k);
        assert Extents(segs)[i].Contains(k);
      }
      if Hit(Extents(segs), k) {
        var i :| 0 <= i < |segs| && Extents(segs)[i].Contains(k);
        assert segs[i].Contains(k);
      }
    }
  }

  /** Canonical lists that cover the same offsets have the same segments, but for backings. */
  lemma SameExtents(a: seq<Segment>, b: seq<Segment>)
    requires Fits(a) && Fits(b) && forall k: nat :: Has(a, k) <==> Has(b, k)
    ensures |a| == |b| && forall i :: 0 <= i < |a| ==> a[i].start == b[i].start && a[i].end == b[i].end
  {
    ExtentsFacts(a);
    ExtentsFacts(b);
    CanonicalUnique(Extents(a), Extents(b));
    assert forall i :: 0 <= i < |a| ==> Extents(a)[i] == Extents(b)[i];
  }

  lemma {:induction false} SameSizes(a: seq<Segment>, b: seq<Segment>, n: nat, k: nat)
    requires n <= |a| == |b| && forall i :: 0 <= i < |a| ==> a[i].start == b[i].start && a[i].end == b[i].end
    ensures TotalTo(a, n) == TotalTo(b, n) && MergedLen(a, n, k) == MergedLen(b, n, k)
  {
    if n > 0 { SameSizes(a, b, n - 1, k); }
  }

  lemma SameRest(a: seq<Segment>, b: seq<Segment>, missing: seq<Range>)
    requires Sorted(a) && Sorted(b) && Canonical(missing) && forall k: nat :: Has(a, k) <==> Has(b, k)
    ensures GapsOf(a, missing) == GapsOf(b, missing)
  {
    GapsOfExact(a, missing);
    GapsOfExact(b, missing);
    CanonicalUnique(GapsOf(a, missing), GapsOf(b, missing));
  }

  lemma {:induction false} SameMissingLimit(limits: Limits, tickets: seq<Record>, a: seq<Segment>, b: seq<Segment>, alloc: Alloc,
                                            i: nat)
    requires Sorted(a) && Sorted(b) && (forall k: nat :: Has(a, k) <==> Has(b, k)) && i <= |tickets|
    requires forall j :: 0 <= j < |tickets| && tickets[j].phase.Pending? ==> Canonical(tickets[j].missing)
    ensures MissingLimit(limits, tickets, a, alloc, i) == MissingLimit(limits, tickets, b, alloc, i)
    decreases |tickets| - i
  {
    hide Sorted, Canonical, Has, GapsOf;
    if i < |tickets| {
      SameMissingLimit(limits, tickets, a, b, alloc, i + 1);
      if tickets[i].phase.Pending? { SameRest(a, b, tickets[i].missing); }
    }
  }

  lemma SameCoverage(segs: seq<Segment>, response: Response, a: seq<Segment>, b: seq<Segment>)
    requires response.Valid() && Rebuilds(segs, response, a) && Rebuilds(segs, response, b)
    ensures forall k: nat :: Has(a, k) <==> Has(b, k)
  {
    forall k: nat ensures Has(a, k) <==> Has(b, k) {
      AtHas(a, k);
      AtHas(b, k);
      assert At(a, k) == At(b, k);
    }
  }

  /** All lists that hold the new content meet the same limit first. */
  lemma LimitByContent(cfg: Config, s: Store, response: Response, a: seq<Segment>, b: seq<Segment>, alloc: Alloc)
    requires Inv(cfg, s) && response.Valid()
    requires Rebuilds(s.segments, response, a) && Rebuilds(s.segments, response, b)
    ensures SupplyLimit(cfg.limits, s, response.range, a, alloc) == SupplyLimit(cfg.limits, s, response.range, b, alloc)
  {
    RebuiltEnd(s.segments, response, a);
    RebuiltEnd(s.segments, response, b);
    SameCoverage(s.segments, response, a, b);
    PendingCanonical(cfg, s);
    hide Inv, Rebuilds, GapsOf;
    SameExtents(a, b);
    SameSizes(a, b, |a|, response.range.start);
    SameMissingLimit(cfg.limits, s.tickets, a, b, alloc, 0);
  }

  lemma PendingCanonical(cfg: Config, s: Store)
    requires Inv(cfg, s)
    ensures forall j :: 0 <= j < |s.tickets| && s.tickets[j].phase.Pending? ==> Canonical(s.tickets[j].missing)
    ensures LastEnd(s.segments) <= U64_MAX
  {
    forall j | 0 <= j < |s.tickets| ensures Canonical(s.tickets[j].missing) {
      assert RecordInv(cfg, s, s.tickets[j]);
    }
  }

  /** A supply cannot both commit and fail, nor fail in two ways. */
  lemma OutcomeDetermined(cfg: Config, s: Store, response: Response, alloc: Alloc, s1: Store, poison1: bool, reply1: Reply,
                          s2: Store, poison2: bool, reply2: Reply)
    requires Inv(cfg, s) && response.Valid()
    requires SupplyStep(cfg, s, response, alloc, s1, poison1, reply1)
    requires SupplyStep(cfg, s, response, alloc, s2, poison2, reply2)
    ensures reply1.Failure? || reply2.Failure? ==> reply1 == reply2 && s1 == s2 && poison1 == poison2
    ensures reply1.Supplied? <==> reply2.Supplied?
  {
    hide Inv, Rebuilds, SupplyLimit, OverLimit, Covered, Conflicts, MetadataConflict, Oversize, TooLong, Woken, NewlyReady, Total;
    if Unsuppliable(cfg, s, response, alloc, if reply1.Failure? then reply1.error else InternalState) {
      var a :| LimitedBy(cfg, s, response, a, alloc, reply1.error);
      OneLimit(cfg, s, response, alloc, a, reply1.error, s2, reply2);
    }
    if Unsuppliable(cfg, s, response, alloc, if reply2.Failure? then reply2.error else InternalState) {
      var a :| LimitedBy(cfg, s, response, a, alloc, reply2.error);
      OneLimit(cfg, s, response, alloc, a, reply2.error, s1, reply1);
    }
  }

  /** Beside a limited list there is neither a commit nor another limit. */
  lemma OneLimit(cfg: Config, s: Store, response: Response, alloc: Alloc, a: seq<Segment>, error: SourceError, s': Store,
                 reply: Reply)
    requires Inv(cfg, s) && response.Valid() && LimitedBy(cfg, s, response, a, alloc, error)
    requires !Covered(s.segments, response.range)
    ensures !Suppliable(cfg, s, response, s'.segments, alloc)
    ensures reply.Failure? && Unsuppliable(cfg, s, response, alloc, reply.error) ==> reply.error == error
  {
    hide Inv, Rebuilds, SupplyLimit, OverLimit;
    if Suppliable(cfg, s, response, s'.segments, alloc) {
      LimitByContent(cfg, s, response, a, s'.segments, alloc);
    }
    if reply.Failure? && Unsuppliable(cfg, s, response, alloc, reply.error) {
      var b :| LimitedBy(cfg, s, response, b, alloc, reply.error);
      LimitByContent(cfg, s, response, a, b, alloc);
    }
  }
}
