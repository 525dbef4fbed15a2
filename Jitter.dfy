/** `applyVisualJitter`: points that share a rounded coordinate are spread
    on rings around the first of them so that each stays visible. The ring
    layout is integer arithmetic and is modelled exactly; the rounding that
    forms the groups (`toFixed(5)`) and the metres-to-degrees displacement
    (`metersToDegrees`, `sin`, `cos`) are parameters. */
module Jitter {
  import opened Options
  import opened Records

  const MaxPerRing := 10
  const BaseMeters := 22
  const RingStepMeters := 18
  const MaxMeters := 110

  /** Where member `i` of a group goes: its ring, its index on the ring, how
      many members the ring holds, and the ring's radius in metres. */
  datatype Slot = Slot(ring: nat, idx: nat, count: nat, radius: nat)

  /** The layout of member `i` in a group of `n`. */
  function SlotOf(i: nat, n: nat): Slot
    requires i < n
  {
    var ring := i / MaxPerRing;
    var count := if MaxPerRing < n - ring * MaxPerRing then MaxPerRing else n - ring * MaxPerRing;
    var radius := BaseMeters + ring * RingStepMeters;
    Slot(ring, i % MaxPerRing, count, if radius > MaxMeters then MaxMeters else radius)
  }

  /** The angle of a slot as a fraction of a full turn; the source's angle
      is `2π` times it. */
  function Angle(s: Slot): real
    requires s.count > 0
  {
    s.idx as real / s.count as real
  }

  /** A member sits on ring `i / 10` at index `i % 10`, strictly below the
      number of members its ring holds (at most ten, and only the last ring
      holds fewer); the radius lies between 22 and 110 metres. */
  lemma SlotInRing(i: nat, n: nat)
    requires i < n
    ensures var s := SlotOf(i, n);
      && s.ring * MaxPerRing + s.idx == i
      && s.idx < s.count <= MaxPerRing
      && (s.count < MaxPerRing ==> n <= (s.ring + 1) * MaxPerRing)
      && BaseMeters <= s.radius <= MaxMeters
  {
  }

  /** The radius never decreases along the group. */
  lemma RadiusMonotone(i: nat, j: nat, n: nat)
    requires i <= j < n
    ensures SlotOf(i, n).radius <= SlotOf(j, n).radius
  {
    assert i / MaxPerRing <= j / MaxPerRing;
  }

  /** Two members of one ring have the same count and different indices,
      hence different angles. */
  lemma SameRingDistinctAngles(i: nat, j: nat, n: nat)
    requires i < n && j < n && i != j
    requires SlotOf(i, n).ring == SlotOf(j, n).ring
    ensures SlotOf(i, n).count == SlotOf(j, n).count
    ensures SlotOf(i, n).idx != SlotOf(j, n).idx
    ensures Angle(SlotOf(i, n)) != Angle(SlotOf(j, n))
  {
    var si, sj := SlotOf(i, n), SlotOf(j, n);
    SlotInRing(i, n);
    SlotInRing(j, n);
    assert si.idx != sj.idx && si.count == sj.count;
  }

  /** The first six rings have six different radii (22, 40, 58, 76, 94 and
      110 metres), so in a group no larger than 60 no two members get the
      same radius and angle. */
  lemma DistinctSlotsUpToSixty(i: nat, j: nat, n: nat)
    requires i < n && j < n && i != j && i < 60 && j < 60
    ensures SlotOf(i, n).radius != SlotOf(j, n).radius || Angle(SlotOf(i, n)) != Angle(SlotOf(j, n))
  {
    SlotInRing(i, n);
    SlotInRing(j, n);
    if SlotOf(i, n).ring == SlotOf(j, n).ring {
      SameRingDistinctAngles(i, j, n);
    }
  }

  /** From the sixth ring on the radius stays at the 110 m cap: in a group of
      more than 60, members 50 and 60 both sit at angle 0 on that radius and
      are drawn on the same spot. */
  lemma CappedRingsCoincide(n: nat)
    requires n > 60
    ensures SlotOf(50, n).radius == SlotOf(60, n).radius == MaxMeters
    ensures Angle(SlotOf(50, n)) == Angle(SlotOf(60, n)) == 0.0
  {
    SlotInRing(50, n);
    SlotInRing(60, n);
  }

  /** The group key: rounded latitude and longitude, `toFixed(5)` joined by
      a comma. */
  type GroupKey = (real, real) -> string

  /** The displacement `(dLat·sin(angle), dLon·cos(angle))` for a group
      centred at latitude `lat0`, a radius in metres and a slot's index and
      count. */
  type Displace = (real, nat, nat, nat) -> (real, real)

  function KeyOf(it: Item, key: GroupKey): string
    requires PassesCheck(it)
  {
    key(NumberValue(it.lat), NumberValue(it.lon))
  }

  /** The record's coordinates pass `isFinite(Number(x))` and it falls in
      group `g`. */
  predicate InGroup(it: Item, g: string, key: GroupKey) {
    PassesCheck(it) && KeyOf(it, key) == g
  }

  /** The positions of the members of group `g`, in batch order. */
  function Members(items: seq<Item>, g: string, key: GroupKey): (ms: seq<nat>)
    ensures forall a :: 0 <= a < |ms| ==> ms[a] < |items| && InGroup(items[ms[a]], g, key)
    decreases |items|
  {
    if items == [] then []
    else
      var m := |items| - 1;
      Members(items[..m], g, key) + (if InGroup(items[m], g, key) then [m] else [])
  }

  /** Members are listed in increasing order of position. */
  lemma {:induction false} MembersIncrease(items: seq<Item>, g: string, key: GroupKey)
    ensures forall a, b :: 0 <= a < b < |Members(items, g, key)| ==> Members(items, g, key)[a] < Members(items, g, key)[b]
    decreases |items|
  {
    if items != [] {
      var m := |items| - 1;
      MembersIncrease(items[..m], g, key);
      var pre := Members(items[..m], g, key);
      var ms := Members(items, g, key);
      assert ms == pre + (if InGroup(items[m], g, key) then [m] else []);
      forall a, b | 0 <= a < b < |ms| ensures ms[a] < ms[b] {
        if b >= |pre| {
          assert ms[b] == m && ms[a] == pre[a] && pre[a] < |items[..m]|;
          assert ms[a] < ms[b];
        } else {
          assert ms[a] == pre[a] && ms[b] == pre[b];
          assert pre[a] < pre[b];
        }
      }
    }
  }

  lemma MembersStep(items: seq<Item>, g: string, key: GroupKey, i: nat)
    requires i < |items|
    ensures Members(items[..i + 1], g, key)
      == Members(items[..i], g, key) + (if InGroup(items[i], g, key) then [i] else [])
  {
    assert items[..i + 1][..i] == items[..i];
  }

  /** The members found in a prefix of the batch come first. */
  lemma {:induction false} MembersPrefix(items: seq<Item>, g: string, key: GroupKey, m: nat)
    requires m <= |items|
    ensures Members(items[..m], g, key) <= Members(items, g, key)
    decreases |items| - m
  {
    if m < |items| {
      var n := |items| - 1;
      assert items[..n][..m] == items[..m];
      MembersPrefix(items[..n], g, key, m);
      assert items[..n + 1] == items;
      MembersStep(items, g, key, n);
    } else {
      assert items[..m] == items;
    }
  }

  /** A record of group `g` is that group's member number "how many members
      come before it". */
  lemma MemberAt(items: seq<Item>, g: string, key: GroupKey, k: nat)
    requires k < |items| && InGroup(items[k], g, key)
    ensures var pos := |Members(items[..k], g, key)|;
      pos < |Members(items, g, key)| && Members(items, g, key)[pos] == k
  {
    MembersStep(items, g, key, k);
    MembersPrefix(items, g, key, k + 1);
  }

  /** The only position of `ms[j]` in a strictly increasing `ms` is `j`. */
  lemma PositionOfMember(items: seq<Item>, g: string, key: GroupKey, j: nat)
    requires j < |Members(items, g, key)|
    ensures var k := Members(items, g, key)[j];
      |Members(items[..k], g, key)| == j
  {
    var ms := Members(items, g, key);
    var k := ms[j];
    MembersIncrease(items, g, key);
    MemberAt(items, g, key, k);
    var pos := |Members(items[..k], g, key)|;
    assert ms[pos] == k;
  }

  /** The record moved to slot `s` around `(lat0, lon0)`. */
  function Spread(it: Item, lat0: real, lon0: real, s: Slot, displace: Displace): Item {
    var d := displace(lat0, s.radius, s.idx, s.count);
    it.(vlat := Coord(lat0 + d.0), vlon := Coord(lon0 + d.1), jitter := Some(s.radius))
  }

  /** Record `k` after `applyVisualJitter` on the batch `items`. */
  function Placed(items: seq<Item>, k: nat, key: GroupKey, displace: Displace): Item
    requires k < |items|
  {
    var it := items[k];
    if !PassesCheck(it) then it
    else
      var g := KeyOf(it, key);
      MemberAt(items, g, key, k);
      var ms := Members(items, g, key);
      if |ms| == 1 then it.(vlat := AsNumber(it.lat), vlon := AsNumber(it.lon))
      else
        var first := items[ms[0]];
        Spread(it, NumberValue(first.lat), NumberValue(first.lon), SlotOf(|Members(items[..k], g, key)|, |ms|), displace)
  }

  /** A record whose coordinates fail `isFinite(Number(x))` (NaN, an
      infinity) is left alone. */
  lemma SkipsRecordsWithoutCoordinates(items: seq<Item>, k: nat, key: GroupKey, displace: Displace)
    requires k < |items| && !PassesCheck(items[k])
    ensures Placed(items, k, key, displace) == items[k]
  {
  }

  /** A record alone in its group is drawn at its own coordinates, as
      `Number()` reads them. */
  lemma SingletonStaysPut(items: seq<Item>, k: nat, key: GroupKey, displace: Displace)
    requires k < |items| && PassesCheck(items[k])
    requires Members(items, KeyOf(items[k], key), key) == [k]
    ensures var p := Placed(items, k, key, displace);
      p == items[k].(vlat := AsNumber(items[k].lat), vlon := AsNumber(items[k].lon))
  {
  }

  /** Member `j` of a group of `n > 1` takes slot `SlotOf(j, n)` around the
      group's first member; only `vlat`, `vlon` and the jitter radius
      change. */
  lemma GroupMemberSpread(items: seq<Item>, g: string, key: GroupKey, displace: Displace, j: nat)
    requires 1 < |Members(items, g, key)| && j < |Members(items, g, key)|
    ensures var ms := Members(items, g, key);
      var first := items[ms[0]];
      var p := Placed(items, ms[j], key, displace);
      && p == Spread(items[ms[j]], NumberValue(first.lat), NumberValue(first.lon), SlotOf(j, |ms|), displace)
      && p.(vlat := items[ms[j]].vlat, vlon := items[ms[j]].vlon, jitter := items[ms[j]].jitter) == items[ms[j]]
      && p.jitter == Some(SlotOf(j, |ms|).radius)
  {
    PositionOfMember(items, g, key, j);
  }

  /** Two members of one group at most 60 strong never share a slot. */
  lemma NoSharedSlotUpToSixty(items: seq<Item>, g: string, key: GroupKey, a: nat, b: nat)
    requires |Members(items, g, key)| <= 60
    requires a < b < |Members(items, g, key)|
    ensures var n := |Members(items, g, key)|;
      SlotOf(a, n).radius != SlotOf(b, n).radius || Angle(SlotOf(a, n)) != Angle(SlotOf(b, n))
  {
    DistinctSlotsUpToSixty(a, b, |Members(items, g, key)|);
  }

  /** `Number("")` is 0, so a record with blank coordinates (a failed one
      keeps them) is grouped at (0, 0): alone there it is drawn at (0, 0);
      with others there it is spread on a ring around the group's first
      member. */
  lemma BlankRecordGroupedAtOrigin(items: seq<Item>, k: nat, key: GroupKey, displace: Displace)
    requires k < |items| && items[k].lat == Blank && items[k].lon == Blank
    ensures InGroup(items[k], key(0.0, 0.0), key)
    ensures Members(items, key(0.0, 0.0), key) == [k] ==>
      Placed(items, k, key, displace).vlat == Coord(0.0) && Placed(items, k, key, displace).vlon == Coord(0.0)
    ensures |Members(items, key(0.0, 0.0), key)| > 1 ==> Placed(items, k, key, displace).jitter.Some?
  {
    var g := key(0.0, 0.0);
    MemberAt(items, g, key, k);
    var pos := |Members(items[..k], g, key)|;
    if |Members(items, g, key)| > 1 {
      GroupMemberSpread(items, g, key, displace, pos);
    }
  }

  predicate Distinct(s: seq<string>) {
    forall a, b :: 0 <= a < b < |s| ==> s[a] != s[b]
  }

  /** Record `k` belongs to one of the groups in `done`. */
  predicate GroupDone(items: seq<Item>, k: nat, done: seq<string>, key: GroupKey)
    requires k < |items|
  {
    PassesCheck(items[k]) && KeyOf(items[k], key) in done
  }

  /** The first loop of `applyVisualJitter`: the positions of the records
      whose coordinates pass the check, grouped by key, and the keys in insertion order
      (the order `Map.values()` visits). */
  method GroupByKey(data: array<Item>, key: GroupKey) returns (groups: map<string, seq<nat>>, order: seq<string>)
    ensures forall g :: g in groups <==> g in order
    ensures forall g :: g in groups <==> Members(data[..], g, key) != []
    ensures forall g :: g in groups ==> groups[g] == Members(data[..], g, key)
    ensures Distinct(order)
  {
    ghost var items := data[..];
    groups, order := map[], [];
    for i := 0 to data.Length
      invariant forall g :: g in groups <==> g in order
      invariant forall g :: g in groups <==> Members(items[..i], g, key) != []
      invariant forall g :: g in groups ==> groups[g] == Members(items[..i], g, key)
      invariant Distinct(order)
    {
      forall g ensures Members(items[..i + 1], g, key)
                 == Members(items[..i], g, key) + (if InGroup(items[i], g, key) then [i] else []) {
        MembersStep(items, g, key, i);
      }
      var it := data[i];
      if PassesCheck(it) {
        var k := KeyOf(it, key);
        if k !in groups {
          groups := groups[k := []];
          order := order + [k];
        }
        groups := groups[k := groups[k] + [i]];
      }
    }
    assert items[..data.Length] == items;
  }

  /** `cur` is the batch `items` with the records of the groups in `done`,
      and those at the positions `extra`, laid out as `Placed` says and every
      other record as it was. */
  ghost predicate LaidOut(items: seq<Item>, cur: seq<Item>, done: seq<string>, extra: seq<nat>,
                          key: GroupKey, displace: Displace)
  {
    && |cur| == |items|
    && forall k :: 0 <= k < |cur| ==>
         cur[k] == if GroupDone(items, k, done, key) || k in extra then Placed(items, k, key, displace) else items[k]
  }

  /** Laying out one more record keeps `LaidOut`. */
  lemma LaidOutStep(items: seq<Item>, cur: seq<Item>, done: seq<string>, extra: seq<nat>,
                    key: GroupKey, displace: Displace, m: nat)
    requires LaidOut(items, cur, done, extra, key, displace)
    requires m < |cur| && !GroupDone(items, m, done, key) && m !in extra
    ensures LaidOut(items, cur[m := Placed(items, m, key, displace)], done, extra + [m], key, displace)
  {
    var next := cur[m := Placed(items, m, key, displace)];
    forall k | 0 <= k < |next|
      ensures next[k] == if GroupDone(items, k, done, key) || k in extra + [m] then Placed(items, k, key, displace) else items[k]
    {
      if k != m {
        assert next[k] == cur[k];
      }
    }
  }

  /** Spreading member `j` of a group of more than one keeps `LaidOut`. */
  lemma SpreadStep(items: seq<Item>, cur: seq<Item>, done: seq<string>, g: string,
                   key: GroupKey, displace: Displace, j: nat)
    requires 1 < |Members(items, g, key)| && j < |Members(items, g, key)| && g !in done
    requires LaidOut(items, cur, done, Members(items, g, key)[..j], key, displace)
    ensures var ms := Members(items, g, key);
      var first := items[ms[0]];
      var s := SlotOf(j, |ms|);
      && ms[j] < |cur|
      && LaidOut(items, cur[ms[j] := Spread(cur[ms[j]], NumberValue(first.lat), NumberValue(first.lon), s, displace)],
                 done, ms[..j + 1], key, displace)
  {
    var ms := Members(items, g, key);
    var m := ms[j];
    MembersIncrease(items, g, key);
    assert m !in ms[..j] && !GroupDone(items, m, done, key);
    GroupMemberSpread(items, g, key, displace, j);
    assert ms[..j + 1] == ms[..j] + [m];
    LaidOutStep(items, cur, done, ms[..j], key, displace, m);
  }

  /** Once every member of `g` is laid out, group `g` counts as done. */
  lemma LaidOutGroup(items: seq<Item>, cur: seq<Item>, done: seq<string>, g: string,
                     key: GroupKey, displace: Displace)
    requires LaidOut(items, cur, done, Members(items, g, key), key, displace)
    ensures LaidOut(items, cur, done + [g], [], key, displace)
  {
    forall k | 0 <= k < |items| && InGroup(items[k], g, key) ensures k in Members(items, g, key) {
      MemberAt(items, g, key, k);
    }
  }

  /** The second loop of `applyVisualJitter` on one group `g` of the batch
      `items`, whose members are at `ms`: a lone member is drawn at its own
      coordinates, the members of a larger group are spread around the
      first one. Records of the groups in `done` are already laid out. */
  method LayOutGroup(data: array<Item>, ghost items: seq<Item>, ms: seq<nat>, ghost g: string,
                     ghost done: seq<string>, key: GroupKey, displace: Displace)
    requires ms == Members(items, g, key) && ms != [] && g !in done
    requires LaidOut(items, data[..], done, [], key, displace)
    modifies data
    ensures LaidOut(items, data[..], done + [g], [], key, displace)
  {
    if |ms| == 1 {
      var m := ms[0];
      ghost var before := data[..];
      assert !GroupDone(items, m, done, key);
      SingletonStaysPut(items, m, key, displace);
      data[m] := data[m].(vlat := AsNumber(data[m].lat), vlon := AsNumber(data[m].lon));
      assert data[..] == before[m := Placed(items, m, key, displace)];
      LaidOutStep(items, before, done, [], key, displace, m);
      LaidOutGroup(items, data[..], done, g, key, displace);
    } else {
      SpreadGroup(data, items, ms, g, done, key, displace);
    }
  }

  /** The ring layout of a group of more than one member. */
  method SpreadGroup(data: array<Item>, ghost items: seq<Item>, ms: seq<nat>, ghost g: string,
                     ghost done: seq<string>, key: GroupKey, displace: Displace)
    requires ms == Members(items, g, key) && |ms| > 1 && g !in done
    requires LaidOut(items, data[..], done, [], key, displace)
    modifies data
    ensures LaidOut(items, data[..], done + [g], [], key, displace)
  {
    var first := data[ms[0]];
    assert first == items[ms[0]] by {
      assert !GroupDone(items, ms[0], done, key);
    }
    var lat0, lon0 := NumberValue(first.lat), NumberValue(first.lon);
    var n := |ms|;
    for j := 0 to n
      invariant LaidOut(items, data[..], done, ms[..j], key, displace)
    {
      var m := ms[j];
      ghost var before := data[..];
      SpreadStep(items, before, done, g, key, displace, j);
      data[m] := Spread(data[m], lat0, lon0, SlotOf(j, n), displace);
      assert data[..] == before[m := Spread(before[m], lat0, lon0, SlotOf(j, n), displace)];
    }
    assert ms[..n] == ms;
    LaidOutGroup(items, data[..], done, g, key, displace);
  }

  /** `applyVisualJitter` on the batch `data`, in place: every record ends
      as `Placed` says. */
  method ApplyVisualJitter(data: array<Item>, key: GroupKey, displace: Displace)
    modifies data
    ensures forall k :: 0 <= k < data.Length ==> data[k] == Placed(old(data[..]), k, key, displace)
  {
    ghost var items := data[..];
    var groups, order := GroupByKey(data, key);
    assert LaidOut(items, data[..], [], [], key, displace);
    for t := 0 to |order|
      invariant LaidOut(items, data[..], order[..t], [], key, displace)
    {
      var g := order[t];
      assert g !in order[..t];
      assert order[..t + 1] == order[..t] + [g];
      LayOutGroup(data, items, groups[g], g, order[..t], key, displace);
    }
    forall k | 0 <= k < data.Length && PassesCheck(items[k]) ensures KeyOf(items[k], key) in order {
      MemberAt(items, KeyOf(items[k], key), key, k);
    }
    assert order[..|order|] == order;
    assert forall k :: 0 <= k < data.Length ==> data[k] == data[..][k];
  }
}
