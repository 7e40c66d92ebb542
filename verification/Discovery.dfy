/**
  Controller discovery with link symmetry check on one node (contiki-sdn/sdn-cd/symmcheck-cd.c): a node
  adopts the metric of a beacon only when it finds itself among the neighbours the beacon lists.
 */
module Discovery {
  import opened Graphs

  type Word = x: int | 0 <= x < 0x1_0000

  const MAX_METRIC: Word := 0xFFFF

  datatype Beacon = Beacon(source: Id, metric: Word, neighbors: seq<Id>)

  datatype Node = Node(metric: Word, nextHop: Id, neighbors: seq<Id>)

  /** `metric + 1` in C: 16-bit unsigned arithmetic wraps unless `int` is wider. */
  function Incremented(m: Word, wide: bool): nat {
    if wide then m + 1 else (m + 1) % 0x1_0000
  }

  predicate Better(m: Word, own: Word, wide: bool) {
    Incremented(m, wide) < own && Incremented(m, wide) > m
  }

  function Clamped(m: nat): Word {
    if m >= MAX_METRIC then MAX_METRIC - 1 else m
  }

  /** symmcheck_cd_input as far as metric and next hop go. */
  function Receive(self: Id, n: Node, b: Beacon, wide: bool): Node {
    if self in b.neighbors && Better(b.metric, n.metric, wide) then
      n.(nextHop := b.source, metric := Clamped(Incremented(b.metric, wide)))
    else n
  }

  /**
    What a beacon does, in plain numbers and for either width of `int`: no wrapped metric is adopted and the
    clamp to MAX_METRIC - 1 never fires.
   */
  lemma ReceiveIsPlain(self: Id, n: Node, b: Beacon, wide: bool)
    ensures Receive(self, n, b, wide) ==
            if self in b.neighbors && b.metric + 1 < n.metric then n.(nextHop := b.source, metric := b.metric + 1)
            else n
    ensures Receive(self, n, b, wide).metric <= n.metric
  {
    if b.metric < 0xFFFF {
      assert (b.metric + 1) % 0x1_0000 == b.metric + 1;
    } else {
      assert (b.metric + 1) % 0x1_0000 == 0;
    }
  }

  // ---------------------------------------------------------------- one node

  const NEIGHBOR_TABLE_SIZE := 10
  const DEFAULT_BEACON_INTERVAL := 10
  const MAX_BEACON_INTERVAL := 600

  /** What the input handler posts to the beacon process. */
  datatype Post = RightAway | ResetInterval

  /** The beacon of the neighbour says it has no controller, and this node has one. */
  predicate NeedsHelp(self: Id, n: Node, b: Beacon) {
    self in b.neighbors && b.metric == 0xFFFF && n.metric < 0xFFFF
  }

  class SymmcheckNode {
    const self: Id
    const firstByte: nat
    const wide: bool
    var metric: Word
    var nextHop: Id
    /** The neighbour table, kept by neighbour discovery. */
    var neighbors: seq<Id>
    var lastNeighborNum: nat
    var beaconInterval: nat

    ghost predicate Valid()
      reads this
    {
      && |neighbors| <= NEIGHBOR_TABLE_SIZE && firstByte < 256
      && DEFAULT_BEACON_INTERVAL <= beaconInterval <= MAX_BEACON_INTERVAL
    }

    ghost function Value(): Node
      reads this
    {
      Node(metric, nextHop, neighbors)
    }

    constructor (self: Id, firstByte: nat, wide: bool, isController: bool)
      requires firstByte < 256
      ensures Valid() && this.self == self && this.wide == wide
      ensures metric == (if isController then 0 else MAX_METRIC) && neighbors == []
      ensures beaconInterval == firstByte % 10 + 10
    {
      this.self, this.firstByte, this.wide := self, firstByte, wide;
      metric := if isController then 0 else MAX_METRIC;
      nextHop, neighbors, lastNeighborNum := 0, [], 0;
      beaconInterval := firstByte % 10 + DEFAULT_BEACON_INTERVAL;
    }

    /** symmcheck_cd_input. */
    method Input(b: Beacon) returns (posts: seq<Post>)
      requires Valid()
      modifies this`metric, this`nextHop, this`lastNeighborNum
      ensures Valid()
      ensures Value() == Receive(self, old(Value()), b, wide)
      ensures RightAway in posts <==> metric < old(metric)
      ensures ResetInterval in posts <==> self in b.neighbors && b.metric == 0xFFFF && old(metric) < 0xFFFF
      ensures NeedsHelp(self, old(Value()), b) ==> lastNeighborNum > NEIGHBOR_TABLE_SIZE
      ensures !NeedsHelp(self, old(Value()), b) ==> lastNeighborNum == old(lastNeighborNum)
    {
      posts := [];
      ReceiveIsPlain(self, Value(), b, wide);
      var i, found := 0, false;
      while i < |b.neighbors| && !found
        invariant 0 <= i <= |b.neighbors|
        invariant found <==> self in b.neighbors[..i]
      {
        found := b.neighbors[i] == self;
        i := i + 1;
      }
      assert b.neighbors[..|b.neighbors|] == b.neighbors;
      if found {
        var m := Incremented(b.metric, wide);
        if m < metric && m > b.metric {
          nextHop := b.source;
          metric := Clamped(m);
          posts := posts + [RightAway];
        }
        if b.metric == MAX_METRIC && metric != MAX_METRIC {
          lastNeighborNum := NEIGHBOR_TABLE_SIZE + 1;
          posts := posts + [ResetInterval];
        }
      }
    }

    /**
      One turn of the beacon process: the timer, a posted event, or both.  The reset writes the low byte of
      the interval only, whatever the high byte holds.
     */
    method Wake(expired: bool, post: seq<Post>) returns (sent: seq<Beacon>)
      requires Valid() && |post| <= 1
      modifies this`lastNeighborNum, this`beaconInterval
      ensures Valid()
      ensures var due := expired && (old(lastNeighborNum) != |neighbors| || metric == MAX_METRIC);
              var beacon := Beacon(self, metric, neighbors);
              && sent == (if due then [beacon] else []) + (if post == [RightAway] then [beacon] else [])
              && lastNeighborNum == if due then |neighbors| else old(lastNeighborNum)
      ensures expired && old(lastNeighborNum) > NEIGHBOR_TABLE_SIZE ==> sent != []
      ensures var after := if !expired then old(beaconInterval)
                           else if 2 * old(beaconInterval) <= 600 then 2 * old(beaconInterval)
                           else 600;
              beaconInterval == if post == [ResetInterval] then 10 + (after / 256 * 256 + firstByte) % 10 else after
    {
      sent := [];
      if expired {
        if lastNeighborNum != |neighbors| || metric == MAX_METRIC {
          lastNeighborNum := |neighbors|;
          sent := sent + [Beacon(self, metric, neighbors)];
        }
        beaconInterval := beaconInterval * 2;
        if beaconInterval > MAX_BEACON_INTERVAL {
          beaconInterval := MAX_BEACON_INTERVAL;
        }
      }
      if post == [RightAway] {
        sent := sent + [Beacon(self, metric, neighbors)];
      } else if post == [ResetInterval] {
        beaconInterval := beaconInterval - beaconInterval % 256 + firstByte;
        beaconInterval := beaconInterval % 10 + DEFAULT_BEACON_INTERVAL;
      }
    }
  }
}
