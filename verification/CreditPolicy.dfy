/** The credit policy's zones, their validation and lookups (`config/creditPolicy.ts`). */
module CreditPolicy {
  import opened Prelude

  /** A run of days overdue, both ends included; no end means open-ended. */
  datatype Span = Span(min: int, max: Option<int>)
  datatype Area = Area(span: Span, action: string)
  datatype Zone = Zone(key: string, span: Span, action: string, areas: Option<seq<Area>>)
  datatype PolicyError =
    | NotFromDayZero
    | OnlyLastIsOpen
    | EndsBeforeStart
    | GapOrOverlap
    | AreaGapOrOverlap
    | AreasMustCover

  const ESCALATION_WINDOW_DAYS := 7
  const OVERDUE_OFFSET_DAYS := 1

  predicate Contains(s: Span, day: int) {
    s.min <= day && (s.max.None? || day <= s.max.value)
  }

  // ---- chains and partitions -------------------------------------------------------------------------------

  /** Spans that follow one another without gap or overlap, from lo up to hi (no hi: without end). */
  predicate IsChain(spans: seq<Span>, lo: int, hi: Option<int>) {
    |spans| > 0 && spans[0].min == lo && spans[|spans| - 1].max == hi &&
    (forall i :: 0 <= i < |spans| ==> Contains(spans[i], spans[i].min)) &&
    (forall i :: 0 <= i < |spans| - 1 ==> spans[i].max.Some? && spans[i + 1].min == spans[i].max.value + 1)
  }

  predicate Between(day: int, lo: int, hi: Option<int>) { Contains(Span(lo, hi), day) }

  /**
   * Non-empty spans in ascending order, and every day from lo to hi lies in exactly one of them, no other day in
   * any.
   */
  ghost predicate IsPartition(spans: seq<Span>, lo: int, hi: Option<int>) {
    (forall i :: 0 <= i < |spans| ==> Contains(spans[i], spans[i].min)) &&
    (forall i, j :: 0 <= i < j < |spans| ==> spans[i].min < spans[j].min) &&
    (forall day :: Between(day, lo, hi) <==> exists i :: 0 <= i < |spans| && Contains(spans[i], day)) &&
    (forall i, j, day ::
      0 <= i < |spans| && 0 <= j < |spans| && Contains(spans[i], day) && Contains(spans[j], day) ==> i == j)
  }

  lemma {:induction false} ChainAscends(spans: seq<Span>, lo: int, hi: Option<int>, i: nat, j: nat)
    requires IsChain(spans, lo, hi) && i < j < |spans|
    ensures spans[i].max.Some? && spans[i].max.value < spans[j].min
    decreases j
  {
    if i < j - 1 { ChainAscends(spans, lo, hi, i, j - 1); }
  }

  /** The span of a chain that holds a day. */
  lemma {:induction false} ChainHolds(spans: seq<Span>, lo: int, hi: Option<int>, day: int) returns (i: nat)
    requires IsChain(spans, lo, hi) && Between(day, lo, hi)
    ensures i < |spans| && Contains(spans[i], day)
    decreases |spans|
  {
    var last := |spans| - 1;
    if day >= spans[last].min {
      i := last;
    } else {
      i := ChainHolds(spans[..last], lo, spans[last - 1].max, day);
    }
  }

  lemma ChainWithin(spans: seq<Span>, lo: int, hi: Option<int>, i: nat, day: int)
    requires IsChain(spans, lo, hi) && i < |spans| && Contains(spans[i], day)
    ensures Between(day, lo, hi)
  {
    if i > 0 { ChainAscends(spans, lo, hi, 0, i); }
    if i < |spans| - 1 { ChainAscends(spans, lo, hi, i, |spans| - 1); }
  }

  lemma ChainIsPartition(spans: seq<Span>, lo: int, hi: Option<int>)
    requires IsChain(spans, lo, hi)
    ensures IsPartition(spans, lo, hi)
  {
    forall i, j | 0 <= i < j < |spans|
      ensures spans[i].min < spans[j].min && forall day :: Contains(spans[i], day) ==> !Contains(spans[j], day)
    {
      ChainAscends(spans, lo, hi, i, j);
    }
    forall day | Between(day, lo, hi) ensures exists i :: 0 <= i < |spans| && Contains(spans[i], day) {
      var i := ChainHolds(spans, lo, hi, day);
    }
    forall day, i | 0 <= i < |spans| && Contains(spans[i], day) ensures Between(day, lo, hi) {
      ChainWithin(spans, lo, hi, i, day);
    }
  }

  lemma PartitionStart(spans: seq<Span>, lo: int, hi: Option<int>)
    requires IsPartition(spans, lo, hi) && Between(lo, lo, hi)
    ensures |spans| > 0 && spans[0].min == lo
  {
    var i :| 0 <= i < |spans| && Contains(spans[i], lo);
    assert Contains(spans[0], spans[0].min);
    assert Between(spans[0].min, lo, hi);
  }

  lemma PartitionStep(spans: seq<Span>, lo: int, hi: Option<int>, i: nat)
    requires IsPartition(spans, lo, hi) && i + 1 < |spans|
    ensures spans[i].max.Some? && spans[i + 1].min == spans[i].max.value + 1
  {
    var next := spans[i + 1].min;
    assert Contains(spans[i + 1], next) && !Contains(spans[i], next);
    var day := spans[i].max.value + 1;
    assert Contains(spans[i], spans[i].min) && Between(spans[i].min, lo, hi) && Between(next, lo, hi);
    assert Between(day, lo, hi);
    var k :| 0 <= k < |spans| && Contains(spans[k], day);
  }

  lemma EarlierEndsBefore(spans: seq<Span>, lo: int, hi: Option<int>, k: nat, l: nat, day: int)
    requires IsPartition(spans, lo, hi) && k < l < |spans|
    ensures Contains(spans[k], day) ==> day < spans[l].min
  {
    assert Contains(spans[l], spans[l].min) && !Contains(spans[k], spans[l].min);
  }

  lemma PartitionEnd(spans: seq<Span>, lo: int, hi: Option<int>)
    requires IsPartition(spans, lo, hi) && |spans| > 0
    ensures spans[|spans| - 1].max == hi
  {
    var last := |spans| - 1;
    assert Contains(spans[last], spans[last].min) && Between(spans[last].min, lo, hi);
    var end := if spans[last].max.Some? then spans[last].max.value else spans[last].min;
    assert Contains(spans[last], end) && Between(end, lo, hi);
    NothingAfter(spans, lo, hi, end + 1);
    var far := if hi.Some? && spans[last].min <= hi.value then hi.value + 1 else spans[last].min;
    assert Contains(spans[last], far) ==> Between(far, lo, hi);
  }

  lemma NothingAfter(spans: seq<Span>, lo: int, hi: Option<int>, day: int)
    requires IsPartition(spans, lo, hi) && |spans| > 0
    ensures day >= spans[|spans| - 1].min && Between(day, lo, hi) ==> Contains(spans[|spans| - 1], day)
  {
    if Between(day, lo, hi) {
      var k :| 0 <= k < |spans| && Contains(spans[k], day);
      if k < |spans| - 1 { EarlierEndsBefore(spans, lo, hi, k, |spans| - 1, day); }
    }
  }

  lemma PartitionIsChain(spans: seq<Span>, lo: int, hi: Option<int>)
    requires IsPartition(spans, lo, hi) && Between(lo, lo, hi)
    ensures IsChain(spans, lo, hi)
  {
    PartitionStart(spans, lo, hi);
    PartitionEnd(spans, lo, hi);
    forall i | 0 <= i < |spans| - 1 ensures spans[i].max.Some? && spans[i + 1].min == spans[i].max.value + 1 {
      PartitionStep(spans, lo, hi, i);
    }
  }

  // ---- validation ----------------------------------------------------------------------------------------------

  function ZoneSpans(zones: seq<Zone>): seq<Span> { seq(|zones|, i requires 0 <= i < |zones| => zones[i].span) }

  function AreaSpans(areas: seq<Area>): seq<Span> { seq(|areas|, i requires 0 <= i < |areas| => areas[i].span) }

  /** The action areas of a zone are absent, an empty list, or a chain over exactly the days of the zone. */
  predicate AreasFit(z: Zone) {
    z.areas.None? || z.areas.value == [] || IsChain(AreaSpans(z.areas.value), z.span.min, z.span.max)
  }

  predicate AcceptedPolicy(zones: seq<Zone>) {
    IsChain(ZoneSpans(zones), 0, None) && forall i :: 0 <= i < |zones| ==> AreasFit(zones[i])
  }

  /** Area j starts where it should and does not end before it starts. */
  predicate AreaFollows(z: Zone, areas: seq<Area>, j: nat)
    requires j < |areas|
  {
    Contains(areas[j].span, areas[j].span.min) &&
    (if j == 0 then areas[j].span.min == z.span.min
     else areas[j - 1].span.max.Some? && areas[j].span.min == areas[j - 1].span.max.value + 1)
  }

  /** Area j ends with its zone when it is the last, and has an end when it is not. */
  predicate AreaEnds(z: Zone, areas: seq<Area>, j: nat)
    requires j < |areas|
  {
    if j == |areas| - 1 then areas[j].span.max == z.span.max else areas[j].span.max.Some?
  }

  /** Area j is the first that is wrong, and e says how. */
  predicate AreaRaises(z: Zone, areas: seq<Area>, j: nat, e: PolicyError) {
    j < |areas| && (forall k :: 0 <= k < j ==> AreaFollows(z, areas, k) && AreaEnds(z, areas, k)) &&
    ((e == AreaGapOrOverlap && !AreaFollows(z, areas, j)) ||
     (e == AreasMustCover && AreaFollows(z, areas, j) && !AreaEnds(z, areas, j)))
  }

  ghost predicate AreasRaise(z: Zone, e: PolicyError) {
    z.areas.Some? && exists j: nat :: AreaRaises(z, z.areas.value, j, e)
  }

  lemma AreasWalked(z: Zone, areas: seq<Area>)
    requires z.areas == Some(areas)
    ensures AreasFit(z) <==> forall k :: 0 <= k < |areas| ==> AreaFollows(z, areas, k) && AreaEnds(z, areas, k)
  {
    var spans := AreaSpans(areas);
    assert |spans| == |areas| && forall k :: 0 <= k < |areas| ==> spans[k] == areas[k].span;
    if areas != [] && AreasFit(z) {
      forall k | 0 <= k < |areas| ensures AreaFollows(z, areas, k) && AreaEnds(z, areas, k) {
        assert Contains(spans[k], spans[k].min);
        if k > 0 { assert spans[k - 1].max.Some? && spans[k - 1 + 1].min == spans[k - 1].max.value + 1; }
        if k < |areas| - 1 { assert spans[k].max.Some?; }
      }
    }
    if areas != [] && forall k :: 0 <= k < |areas| ==> AreaFollows(z, areas, k) && AreaEnds(z, areas, k) {
      assert AreaFollows(z, areas, 0) && AreaEnds(z, areas, |areas| - 1);
      forall k | 0 <= k < |spans| - 1 ensures spans[k].max.Some? && spans[k + 1].min == spans[k].max.value + 1 {
        assert AreaFollows(z, areas, k + 1);
      }
      forall k | 0 <= k < |spans| ensures Contains(spans[k], spans[k].min) { assert AreaFollows(z, areas, k); }
    }
  }

  /** Accepts exactly fitting areas, else names the first wrong area's fault. */
  method ValidateAreas(z: Zone) returns (error: Option<PolicyError>)
    ensures error.None? <==> AreasFit(z)
    ensures error.Some? ==> AreasRaise(z, error.value)
  {
    if z.areas.None? { return None; }
    var areas := z.areas.value;
    AreasWalked(z, areas);
    var expected := z.span.min;
    for j := 0 to |areas|
      invariant forall k :: 0 <= k < j ==> AreaFollows(z, areas, k) && AreaEnds(z, areas, k)
      invariant expected == if j == 0 then z.span.min
                            else (if areas[j - 1].span.max.Some? then areas[j - 1].span.max.value else 0) + 1
    {
      var a := areas[j].span;
      assert j > 0 ==> AreaEnds(z, areas, j - 1);
      if a.min != expected || (a.max.Some? && a.max.value < a.min) {
        assert AreaRaises(z, areas, j, AreaGapOrOverlap);
        return Some(AreaGapOrOverlap);
      }
      if (if j == |areas| - 1 then a.max != z.span.max else a.max.None?) {
        assert AreaRaises(z, areas, j, AreasMustCover);
        return Some(AreasMustCover);
      }
      expected := (if a.max.Some? then a.max.value else 0) + 1;
    }
    return None;
  }

  predicate OpenOk(zones: seq<Zone>, i: nat)
    requires i < |zones|
  {
    zones[i].span.max.None? <==> i == |zones| - 1
  }

  predicate Follows(zones: seq<Zone>, i: nat)
    requires i < |zones|
  {
    i > 0 ==> zones[i - 1].span.max.Some? && zones[i].span.min == zones[i - 1].span.max.value + 1
  }

  /** What holds of the first n zones while they are walked. */
  predicate ZonesSoFar(zones: seq<Zone>, n: nat)
    requires n <= |zones|
  {
    forall i :: 0 <= i < n ==>
      OpenOk(zones, i) && Contains(zones[i].span, zones[i].span.min) && Follows(zones, i) && AreasFit(zones[i])
  }

  /** Zone i is the first that is wrong, and e is the first thing wrong with it. */
  ghost predicate ZoneRaises(zones: seq<Zone>, i: nat, e: PolicyError) {
    i < |zones| && ZonesSoFar(zones, i) &&
    (match e
     case NotFromDayZero => false
     case OnlyLastIsOpen => !OpenOk(zones, i)
     case EndsBeforeStart => OpenOk(zones, i) && !Contains(zones[i].span, zones[i].span.min)
     case GapOrOverlap => OpenOk(zones, i) && Contains(zones[i].span, zones[i].span.min) && !Follows(zones, i)
     case _ =>
       OpenOk(zones, i) && Contains(zones[i].span, zones[i].span.min) && Follows(zones, i) && AreasRaise(zones[i], e))
  }

  predicate StartsAtZero(zones: seq<Zone>) { |zones| > 0 && zones[0].span.min == 0 }

  /** The error of a policy: a wrong start, or else the first wrong thing of the first wrong zone. */
  ghost predicate PolicyRaises(zones: seq<Zone>, e: PolicyError) {
    if StartsAtZero(zones) then exists i: nat :: ZoneRaises(zones, i, e) else e == NotFromDayZero
  }

  lemma OneAreaError(z: Zone, areas: seq<Area>, i: nat, e: PolicyError, j: nat, f: PolicyError)
    requires AreaRaises(z, areas, i, e) && AreaRaises(z, areas, j, f)
    ensures i == j && e == f
  {
  }

  lemma RaisingAreasDoNotFit(z: Zone, e: PolicyError)
    requires AreasRaise(z, e)
    ensures !AreasFit(z)
  {
    AreasWalked(z, z.areas.value);
    var j: nat :| AreaRaises(z, z.areas.value, j, e);
  }

  lemma RaisingZoneIsWrong(zones: seq<Zone>, i: nat, e: PolicyError)
    requires ZoneRaises(zones, i, e)
    ensures !ZonesSoFar(zones, i + 1)
  {
    if AreasRaise(zones[i], e) { RaisingAreasDoNotFit(zones[i], e); }
  }

  lemma EarlierWrongZone(zones: seq<Zone>, i: nat, e: PolicyError, j: nat, f: PolicyError)
    requires ZoneRaises(zones, i, e) && ZoneRaises(zones, j, f)
    ensures !(i < j)
  {
    RaisingZoneIsWrong(zones, i, e);
  }

  /** No policy has two errors: the contract fixes which one is reported. */
  lemma OneError(zones: seq<Zone>, e: PolicyError, f: PolicyError)
    requires PolicyRaises(zones, e) && PolicyRaises(zones, f)
    ensures e == f
  {
    if StartsAtZero(zones) {
      var i: nat :| ZoneRaises(zones, i, e);
      var j: nat :| ZoneRaises(zones, j, f);
      EarlierWrongZone(zones, i, e, j, f);
      EarlierWrongZone(zones, j, f, i, e);
      if AreasRaise(zones[i], e) && AreasRaise(zones[i], f) {
        var k: nat :| AreaRaises(zones[i], zones[i].areas.value, k, e);
        var l: nat :| AreaRaises(zones[i], zones[i].areas.value, l, f);
        OneAreaError(zones[i], zones[i].areas.value, k, e, l, f);
      }
    }
  }

  lemma WalkedChain(zones: seq<Zone>)
    requires IsChain(ZoneSpans(zones), 0, None)
    ensures StartsAtZero(zones)
    ensures forall i :: 0 <= i < |zones| ==>
      OpenOk(zones, i) && Contains(zones[i].span, zones[i].span.min) && Follows(zones, i)
  {
    var spans := ZoneSpans(zones);
    assert forall i :: 0 <= i < |zones| ==> spans[i] == zones[i].span;
    forall i | 0 <= i < |zones|
      ensures OpenOk(zones, i) && Contains(zones[i].span, zones[i].span.min) && Follows(zones, i)
    {
      assert Contains(spans[i], spans[i].min);
      if i < |zones| - 1 { assert spans[i].max.Some?; }
      if i > 0 { assert spans[i - 1].max.Some? && spans[i - 1 + 1].min == spans[i - 1].max.value + 1; }
    }
  }

  lemma ChainWalked(zones: seq<Zone>)
    requires StartsAtZero(zones) && ZonesSoFar(zones, |zones|)
    ensures IsChain(ZoneSpans(zones), 0, None)
  {
    var spans := ZoneSpans(zones);
    assert OpenOk(zones, |zones| - 1);
    forall i | 0 <= i < |spans| - 1 ensures spans[i].max.Some? && spans[i + 1].min == spans[i].max.value + 1 {
      assert Follows(zones, i + 1);
    }
    forall i | 0 <= i < |spans| ensures Contains(spans[i], spans[i].min) { assert OpenOk(zones, i); }
  }

  lemma AllZonesWalked(zones: seq<Zone>)
    ensures AcceptedPolicy(zones) <==> StartsAtZero(zones) && ZonesSoFar(zones, |zones|)
  {
    if IsChain(ZoneSpans(zones), 0, None) { WalkedChain(zones); }
    if StartsAtZero(zones) && ZonesSoFar(zones, |zones|) { ChainWalked(zones); }
  }

  /**
   * Accepts a policy exactly when its zones are a chain of days from 0 on and each zone's areas fit; otherwise reports
   * its one error.
   */
  method ValidateCreditPolicy(zones: seq<Zone>) returns (error: Option<PolicyError>)
    ensures error.None? <==> AcceptedPolicy(zones)
    ensures error.Some? ==> PolicyRaises(zones, error.value)
  {
    AllZonesWalked(zones);
    if |zones| == 0 || zones[0].span.min != 0 { return Some(NotFromDayZero); }
    for i := 0 to |zones|
      invariant ZonesSoFar(zones, i)
    {
      var z := zones[i];
      assert i > 0 ==> OpenOk(zones, i - 1);
      if (i == |zones| - 1) != z.span.max.None? {
        assert ZoneRaises(zones, i, OnlyLastIsOpen);
        return Some(OnlyLastIsOpen);
      }
      if z.span.max.Some? && z.span.max.value < z.span.min {
        assert ZoneRaises(zones, i, EndsBeforeStart);
        return Some(EndsBeforeStart);
      }
      if i > 0 && z.span.min != zones[i - 1].span.max.value + 1 {
        assert ZoneRaises(zones, i, GapOrOverlap);
        return Some(GapOrOverlap);
      }
      var e := ValidateAreas(z);
      if e.Some? {
        assert ZoneRaises(zones, i, e.value);
        return e;
      }
    }
    return None;
  }

  /** Accepting means partitioning: every day from 0 on lies in exactly one zone, and the zones are in order. */
  lemma AcceptedIffPartition(zones: seq<Zone>)
    ensures AcceptedPolicy(zones) <==>
      IsPartition(ZoneSpans(zones), 0, None) && forall i :: 0 <= i < |zones| ==> AreasFit(zones[i])
  {
    if IsChain(ZoneSpans(zones), 0, None) { ChainIsPartition(ZoneSpans(zones), 0, None); }
    if IsPartition(ZoneSpans(zones), 0, None) { PartitionIsChain(ZoneSpans(zones), 0, None); }
  }

  /** In an accepted zone the areas partition the days of the zone, unless the list of areas is empty. */
  lemma AreasCoverIffAny(z: Zone)
    requires AreasFit(z) && z.areas.Some? && Contains(z.span, z.span.min)
    ensures IsPartition(AreaSpans(z.areas.value), z.span.min, z.span.max) <==> z.areas.value != []
  {
    if z.areas.value != [] {
      ChainIsPartition(AreaSpans(z.areas.value), z.span.min, z.span.max);
    } else {
      assert Between(z.span.min, z.span.min, z.span.max);
    }
  }

  // ---- lookups ---------------------------------------------------------------------------------------------------

  function FirstHolding(spans: seq<Span>, day: int): (i: nat)
    ensures i <= |spans|
    ensures i < |spans| ==> Contains(spans[i], day)
    ensures forall j :: 0 <= j < i ==> !Contains(spans[j], day)
  {
    if spans == [] || Contains(spans[0], day) then 0
    else
      var i := FirstHolding(spans[1..], day);
      assert forall j :: 1 <= j < i + 1 ==> spans[j] == spans[1..][j - 1];
      i + 1
  }

  /** The position of the zone of a number of days overdue; None when negative. */
  function ZoneForDays(day: int, zones: seq<Zone>): (i: Option<nat>)
    requires |zones| > 0
    ensures i.Some? ==> i.value < |zones|
  {
    if day < 0 then None
    else
      var i := FirstHolding(ZoneSpans(zones), day);
      Some(if i < |zones| then i else |zones| - 1)
  }

  datatype Next = Next(zone: nat, inDays: int)

  function NextZone(day: int, zones: seq<Zone>): Option<Next>
    requires |zones| > 0
  {
    match ZoneForDays(day, zones)
    case None => None
    case Some(i) =>
      if zones[i].span.max.None? || i + 1 == |zones| then None
      else Some(Next(i + 1, zones[i].span.max.value + 1 - day))
  }

  predicate ApproachingNextZone(day: int, zones: seq<Zone>)
    requires |zones| > 0
  {
    NextZone(day, zones).Some? && NextZone(day, zones).value.inDays <= ESCALATION_WINDOW_DAYS
  }

  /** The position of the action area for a day in its zone; None when the zone has none. */
  function ActionForDays(day: int, zones: seq<Zone>): Option<nat>
    requires |zones| > 0
  {
    match ZoneForDays(day, zones)
    case None => None
    case Some(i) =>
      if zones[i].areas.None? then None
      else
        var j := FirstHolding(AreaSpans(zones[i].areas.value), day);
        if j < |zones[i].areas.value| then Some(j) else None
  }

  /** In an accepted policy a day from 0 on is looked up in the one zone that holds it. */
  lemma ZoneLookup(day: int, zones: seq<Zone>, k: nat)
    requires AcceptedPolicy(zones) && k < |zones|
    ensures ZoneForDays(day, zones) == Some(k) <==> day >= 0 && Contains(zones[k].span, day)
    ensures ZoneForDays(day, zones).None? <==> day < 0
  {
    var spans := ZoneSpans(zones);
    ChainIsPartition(spans, 0, None);
    assert spans[k] == zones[k].span;
    if day >= 0 {
      assert Between(day, 0, None);
      var i :| 0 <= i < |spans| && Contains(spans[i], day);
      var first := FirstHolding(spans, day);
      assert first == i;
    }
  }

  lemma LookedUp(day: int, zones: seq<Zone>)
    requires AcceptedPolicy(zones) && day >= 0
    ensures ZoneForDays(day, zones).Some? && Contains(zones[ZoneForDays(day, zones).value].span, day)
  {
    ZoneLookup(day, zones, ZoneForDays(day, zones).value);
  }

  lemma NeighbouringZones(zones: seq<Zone>, i: nat)
    requires AcceptedPolicy(zones) && i < |zones|
    ensures zones[i].span.max.None? <==> i == |zones| - 1
    ensures i + 1 < |zones| ==>
      zones[i + 1].span.min == zones[i].span.max.value + 1 && Contains(zones[i + 1].span, zones[i + 1].span.min)
  {
    AllZonesWalked(zones);
  }

  /**
   * The countdown is exact: the customer stays in its zone until the last day before, and is in the next one on the
   * day itself. Only a day not yet due, or in the last zone, has no next zone.
   */
  lemma CountdownIsExact(day: int, zones: seq<Zone>)
    requires AcceptedPolicy(zones)
    ensures NextZone(day, zones).None? <==> day < 0 || ZoneForDays(day, zones) == Some(|zones| - 1)
    ensures NextZone(day, zones).Some? ==>
      var next := NextZone(day, zones).value;
      next.inDays > 0 && ZoneForDays(day + next.inDays, zones) == Some(next.zone) &&
      forall d :: day <= d < day + next.inDays ==> ZoneForDays(d, zones) == ZoneForDays(day, zones)
  {
    if day >= 0 {
      LookedUp(day, zones);
      var i := ZoneForDays(day, zones).value;
      NeighbouringZones(zones, i);
      if i + 1 < |zones| {
        var end := zones[i].span.max.value;
        ZoneLookup(end + 1, zones, i + 1);
        forall d | day <= d < end + 1 ensures ZoneForDays(d, zones) == Some(i) { ZoneLookup(d, zones, i); }
      }
    }
  }

  /** A zone with areas always has exactly one for each of its days. */
  lemma ActionIsFound(day: int, zones: seq<Zone>, i: nat)
    requires AcceptedPolicy(zones) && ZoneForDays(day, zones) == Some(i) && zones[i].areas.Some? &&
      zones[i].areas.value != []
    ensures ActionForDays(day, zones).Some?
    ensures forall j :: 0 <= j < |zones[i].areas.value| ==>
      (Contains(zones[i].areas.value[j].span, day) <==> ActionForDays(day, zones) == Some(j))
  {
    var spans := AreaSpans(zones[i].areas.value);
    ZoneLookup(day, zones, i);
    ChainIsPartition(spans, zones[i].span.min, zones[i].span.max);
    assert Between(day, zones[i].span.min, zones[i].span.max);
    var j :| 0 <= j < |spans| && Contains(spans[j], day);
    assert FirstHolding(spans, day) == j;
    assert forall m :: 0 <= m < |spans| ==> spans[m] == zones[i].areas.value[m].span;
  }

  // ---- the policy in force -----------------------------------------------------------------------------------------

  const CREDIT_POLICY_ZONES: seq<Zone> := [
    Zone("GREEN", Span(0, Some(15)), "Payment Reminder", None),
    Zone("YELLOW", Span(16, Some(30)), "Follow-up / Customer Visit", None),
    Zone("RED", Span(31, Some(44)), "CEO Intervention", None),
    Zone("BLOCK", Span(45, None), "Management Escalation", Some(BLOCK_AREAS))
  ]

  const BLOCK_AREAS: seq<Area> := [
    Area(Span(45, Some(60)), "Management Escalation"),
    Area(Span(61, Some(65)), "Final Warning + Stop Supply"),
    Area(Span(66, None), "Legal Action")
  ]

  lemma PolicyInForceIsAccepted()
    ensures AcceptedPolicy(CREDIT_POLICY_ZONES)
  {
    var zones := CREDIT_POLICY_ZONES;
    assert IsChain(AreaSpans(BLOCK_AREAS), 45, None);
    assert ZoneSpans(zones) == [Span(0, Some(15)), Span(16, Some(30)), Span(31, Some(44)), Span(45, None)];
  }

  /** An empty list of areas is accepted although it covers nothing. */
  lemma EmptyAreasAreAccepted(zones: seq<Zone>)
    requires zones == [Zone("GREEN", Span(0, None), "Payment Reminder", Some([]))]
    ensures AcceptedPolicy(zones) && ZoneForDays(0, zones) == Some(0) && ActionForDays(0, zones) == None
  {
    assert ZoneSpans(zones) == [Span(0, None)];
    assert Contains(ZoneSpans(zones)[0], 0);
  }
}
