// The choice of a connection within a pool (crates/ws-net-access/src/app.rs `next_connection`).
module ConnectionPool {
  import opened Basics
  import opened DataFrames

  const WORD_SIZE: nat := 0x1_0000_0000_0000_0000

  // What the loop reads of a connection: its two closed flags, its load and the free capacity of its queue.
  datatype Connection = Connection(closed: bool, outboundClosed: bool, load: nat, capacity: nat) {
    predicate Open() {
      !closed && !outboundClosed
    }
  }

  // `load < best_load || (load == best_load && capacity > best_capacity)`
  predicate Better(a: Connection, b: Connection) {
    a.load < b.load || (a.load == b.load && a.capacity > b.capacity)
  }

  // `(start + offset) % len`, with the 64-bit addition wrapping.
  function Slot(start: Word64, offset: nat, len: nat): (r: nat)
    requires len > 0
    ensures r < len
  {
    ((start + offset) % WORD_SIZE) % len
  }

  // What a scan reads: at each offset, the state of the connection it looks at, at the moment it does. Other tasks may
  // change connections meanwhile, so two looks at one connection may differ.
  type Readings = seq<Connection>

  // The offset of the first open reading that no open one beats.
  ghost predicate Picks(seen: Readings, offset: nat) {
    && offset < |seen| && seen[offset].Open()
    && (forall o :: 0 <= o < |seen| && seen[o].Open() ==> !Better(seen[o], seen[offset]))
    && (forall o :: 0 <= o < offset && seen[o].Open() ==> Better(seen[offset], seen[o]))
  }

  ghost predicate NoneSeenOpen(seen: Readings) {
    forall o :: 0 <= o < |seen| ==> !seen[o].Open()
  }

  // The result: the connection at that offset, else the one at `start`.
  ghost predicate Chosen(seen: Readings, start: Word64, index: nat)
    requires seen != []
  {
    || (exists o: nat :: Picks(seen, o) && index == Slot(start, o, |seen|))
    || (NoneSeenOpen(seen) && index == start % |seen|)
  }

  // The readings of a pool that nobody changes during the scan.
  function Snapshot(connections: seq<Connection>, start: Word64): (seen: Readings)
    requires connections != []
    ensures |seen| == |connections|
    ensures forall o :: 0 <= o < |seen| ==> seen[o] == connections[Slot(start, o, |connections|)]
  {
    seq(|connections|, o requires 0 <= o < |connections| => connections[Slot(start, o, |connections|)])
  }

  class Pool {
    const size: nat
    var next: Word64

    constructor (size: nat)
      requires size > 0
      ensures this.size == size && next == 0
    {
      this.size, this.next := size, 0;
    }

    method NextConnection(seen: Readings) returns (index: nat)
      requires |seen| == size > 0
      modifies this`next
      ensures next == (old(next) + 1) % WORD_SIZE
      ensures index < size && Chosen(seen, old(next), index)
    {
      var start := next;
      next := (next + 1) % WORD_SIZE;
      var best: Option<nat> := None;
      var bestSeen := seen[0];
      ghost var at := 0;
      for offset := 0 to size
        invariant best.None? ==> forall o :: 0 <= o < offset ==> !seen[o].Open()
        invariant best.Some? ==> at < offset && best.value == Slot(start, at, size)
        invariant best.Some? ==> bestSeen == seen[at] && bestSeen.Open()
        invariant best.Some? ==> forall o :: 0 <= o < offset && seen[o].Open() ==> !Better(seen[o], bestSeen)
        invariant best.Some? ==> forall o :: 0 <= o < at && seen[o].Open() ==> Better(bestSeen, seen[o])
      {
        var connection := seen[offset];
        if connection.Open() {
          if best.None? || Better(connection, bestSeen) {
            best, bestSeen := Some(Slot(start, offset, size)), connection;
            at := offset;
          }
        }
      }
      if best.Some? {
        index := best.value;
        assert Picks(seen, at);
      } else {
        index := start % size;
      }
    }
  }

  // The choice is determined by the readings and the rotation.
  lemma ChoiceIsUnique(seen: Readings, start: Word64, a: nat, b: nat)
    requires seen != [] && Chosen(seen, start, a) && Chosen(seen, start, b)
    ensures a == b
  {
  }

  // However the pool changes during the scan: if any reading found a connection open, the one returned was found open,
  // with least load and then greatest capacity among all open readings, and first among equals.
  lemma ChosenWasBestSeen(seen: Readings, start: Word64, index: nat, o: nat) returns (p: nat)
    requires seen != [] && Chosen(seen, start, index) && o < |seen| && seen[o].Open()
    ensures p < |seen| && index == Slot(start, p, |seen|) && seen[p].Open() && seen[p].load <= seen[o].load
    ensures seen[p].load == seen[o].load ==> seen[p].capacity >= seen[o].capacity
    ensures seen[p] == seen[o] ==> p <= o
  {
    p :| Picks(seen, p) && index == Slot(start, p, |seen|);
    assert !Better(seen[o], seen[p]);
  }

  // ---------------------------------------------------------------- what the scan covers

  ghost predicate Visited(start: Word64, n: nat, i: nat)
    requires n > 0
  {
    exists o :: 0 <= o < n && Slot(start, o, n) == i
  }

  // The scan visits every connection.
  ghost predicate Covers(start: Word64, n: nat)
    requires n > 0
  {
    forall i :: 0 <= i < n ==> Visited(start, n, i)
  }

  lemma ModShift(x: nat, y: nat, n: nat)
    requires n > 0
    ensures (x + n * y) % n == x % n
    decreases y
  {
    if y > 0 {
      ModShift(x, y - 1, n);
      assert x + n * y == (x + n * (y - 1)) + n by {
        assert n * y == n * (y - 1) + n;
      }
      AddModulus(x + n * (y - 1), n);
    }
  }

  lemma AddModulus(x: nat, n: nat)
    requires n > 0
    ensures (x + n) % n == x % n
  {
    assert x == n * (x / n) + x % n;
    var q := x / n;
    assert x + n == n * (q + 1) + x % n by {
      assert n * (q + 1) == n * q + n;
    }
    DivModUnique(x + n, n, q + 1, x % n);
  }

  lemma DivModUnique(a: nat, n: nat, q: nat, r: nat)
    requires n > 0 && r < n && a == n * q + r
    ensures a % n == r
  {
    QuotientUnique(n, a / n, a % n, q, r);
  }

  lemma QuotientUnique(n: int, q: int, r: int, q': int, r': int)
    requires 0 <= r < n && 0 <= r' < n && n * q + r == n * q' + r'
    ensures r == r'
  {
    var d := q - q';
    assert n * d == n * q - n * q';
    assert -n < n * d < n;
    assert d >= 1 ==> n * d >= n;
    assert d <= -1 ==> n * d <= -n;
  }

  // In plain rotation (no wrap) the slots of n consecutive offsets are all of 0..n.
  lemma RotationCovers(start: nat, n: nat, i: nat) returns (o: nat)
    requires n > 0 && i < n
    ensures o < n && (start + o) % n == i
  {
    var r := start % n;
    o := if i >= r then i - r else i + n - r;
    assert start == n * (start / n) + r;
    if i >= r {
      assert start + o == i + n * (start / n);
      ModShift(i, start / n, n);
    } else {
      assert start + o == i + n * (start / n + 1) by {
        assert n * (start / n + 1) == n * (start / n) + n;
      }
      ModShift(i, start / n + 1, n);
    }
    assert i % n == i by { DivModUnique(i, n, 0, i); }
  }

  // Away from the counter's wrap, or for a pool size that divides 2^64, the slot is the plain rotation.
  lemma SlotIsRotation(start: Word64, o: nat, n: nat)
    requires 0 < n <= WORD_SIZE && o < n
    requires start + n <= WORD_SIZE || WORD_SIZE % n == 0
    ensures Slot(start, o, n) == (start + o) % n
  {
    if start + o < WORD_SIZE {
      DivModUnique(start + o, WORD_SIZE, 0, start + o);
    } else {
      var x := start + o - WORD_SIZE;
      DivModUnique(start + o, WORD_SIZE, 1, x);
      var k := WORD_SIZE / n;
      assert WORD_SIZE == n * k;
      ModShift(x, k, n);
      assert start + o == x + n * k;
    }
  }

  // The scan covers the pool exactly when the start counter does not wrap inside it, or the pool size divides 2^64.
  lemma ScanCoversExactly(start: Word64, n: nat)
    requires 0 < n <= WORD_SIZE
    ensures Covers(start, n) <==> start + n <= WORD_SIZE || WORD_SIZE % n == 0
  {
    if start + n <= WORD_SIZE || WORD_SIZE % n == 0 {
      forall i | 0 <= i < n ensures Visited(start, n, i) {
        var o := RotationCovers(start, n, i);
        SlotIsRotation(start, o, n);
      }
    } else {
      WrappedScanMisses(start, n);
    }
  }

  // The slot a wrapped scan leaves out, where w offsets come before the wrap: those cover w slots ending at
  // 2^64 mod n - 1, the others start over at slot 0.
  function MissedSlot(n: nat, w: nat): nat
    requires 0 < w < n
  {
    var r := WORD_SIZE % n;
    if r >= w then n - 1 else n - w + r - 1
  }

  lemma WrappedScanMisses(start: Word64, n: nat)
    requires 0 < n <= WORD_SIZE && start + n > WORD_SIZE && WORD_SIZE % n != 0
    ensures !Covers(start, n)
  {
    var w := WORD_SIZE - start;
    var missed := MissedSlot(n, w);
    assert Covers(start, n) ==> Visited(start, n, missed);
    forall o | 0 <= o < n ensures Slot(start, o, n) != missed {
      if o < w {
        BeforeWrap(start, n, w, o);
      } else {
        DivModUnique(start + o, WORD_SIZE, 1, o - w);
        DivModUnique(o - w, n, 0, o - w);
      }
    }
  }

  lemma BeforeWrap(start: Word64, n: nat, w: nat, o: nat)
    requires 0 < w < n <= WORD_SIZE && start == WORD_SIZE - w && o < w && WORD_SIZE % n != 0
    ensures Slot(start, o, n) != MissedSlot(n, w)
  {
    var v, j := start + o, w - o;
    DivModUnique(v, WORD_SIZE, 0, v);
    var k, r := WORD_SIZE / n, WORD_SIZE % n;
    assert WORD_SIZE == n * k + r;
    if j <= r {
      DivModUnique(v, n, k, r - j);
    } else {
      assert k >= 1;
      assert v == n * (k - 1) + (n + r - j) by {
        assert n * (k - 1) == n * k - n;
      }
      DivModUnique(v, n, k - 1, n + r - j);
    }
  }

  // ---------------------------------------------------------------- what a caller can rely on

  // Where the scan covers a pool that stays as it is: an open connection is returned whenever there is one, of least
  // load, and of greatest capacity among those.
  lemma ChoosesBestOpen(connections: seq<Connection>, start: Word64, index: nat, i: nat)
    requires connections != [] && |connections| <= WORD_SIZE && i < |connections|
    requires start + |connections| <= WORD_SIZE || WORD_SIZE % |connections| == 0
    requires Chosen(Snapshot(connections, start), start, index) && connections[i].Open()
    ensures index < |connections| && connections[index].Open()
    ensures connections[index].load <= connections[i].load
    ensures connections[index].load == connections[i].load ==> connections[index].capacity >= connections[i].capacity
  {
    var n := |connections|;
    ScanCoversExactly(start, n);
    assert Visited(start, n, i);
    var o :| 0 <= o < n && Slot(start, o, n) == i;
    var p := ChosenWasBestSeen(Snapshot(connections, start), start, index, o);
  }

  // Where it does not, the only open connection can be the one left out, and a closed one is returned instead.
  lemma WrappedScanCanChooseClosed(n: nat, start: Word64)
    returns (connections: seq<Connection>, open: nat, index: nat)
    requires 0 < n <= WORD_SIZE && start + n > WORD_SIZE && WORD_SIZE % n != 0
    ensures |connections| == n && open < n && connections[open].Open()
    ensures index < n && Chosen(Snapshot(connections, start), start, index) && !connections[index].Open()
  {
    WrappedScanMisses(start, n);
    open :| 0 <= open < n && !Visited(start, n, open);
    connections := seq(n, k requires 0 <= k < n => Connection(k != open, false, 0, 0));
    index := start % n;
    DivModUnique(start, WORD_SIZE, 0, start);
    assert Slot(start, 0, n) == index;
    assert NoneSeenOpen(Snapshot(connections, start));
  }

  ghost predicate AllAlike(connections: seq<Connection>) {
    forall i :: 0 <= i < |connections| ==> connections[i].Open() && connections[i] == connections[0]
  }

  // Equal open connections are taken in turn: the k-th of n calls gets slot k of the rotation, so n calls get each
  // connection once, under the same exact condition.
  lemma EqualConnectionsTakeTurns(connections: seq<Connection>, start: Word64, indices: seq<nat>)
    requires connections != [] && |connections| <= WORD_SIZE && AllAlike(connections)
    requires |indices| == |connections|
    requires forall k :: 0 <= k < |indices| ==> ChosenFrom(connections, (start + k) % WORD_SIZE, indices[k])
    ensures forall k :: 0 <= k < |indices| ==> indices[k] == Slot(start, k, |connections|)
    ensures (forall i :: 0 <= i < |connections| ==> i in indices)
            <==> start + |connections| <= WORD_SIZE || WORD_SIZE % |connections| == 0
  {
    var n := |connections|;
    forall k | 0 <= k < n ensures indices[k] == Slot(start, k, n) {
      FirstIsChosen(connections, (start + k) % WORD_SIZE, indices[k]);
    }
    ScanCoversExactly(start, n);
    if forall i :: 0 <= i < n ==> i in indices {
      forall i | 0 <= i < n ensures Visited(start, n, i) {
        assert i in indices;
        var k :| 0 <= k < n && indices[k] == i;
        assert Slot(start, k, n) == i;
      }
    } else {
      var i :| 0 <= i < n && i !in indices;
      assert forall o :: 0 <= o < n ==> Slot(start, o, n) == indices[o] && indices[o] in indices;
      assert !Visited(start, n, i);
    }
  }

  ghost predicate ChosenFrom(connections: seq<Connection>, start: Word64, index: nat)
    requires connections != []
  {
    Chosen(Snapshot(connections, start), start, index)
  }

  lemma FirstIsChosen(connections: seq<Connection>, start: Word64, index: nat)
    requires connections != [] && AllAlike(connections) && ChosenFrom(connections, start, index)
    ensures index == start % |connections|
  {
    var n, seen := |connections|, Snapshot(connections, start);
    DivModUnique(start, WORD_SIZE, 0, start);
    assert Slot(start, 0, n) == start % n;
    assert seen[0].Open();
    var o: nat :| Picks(seen, o) && index == Slot(start, o, n);
    assert !Better(seen[o], seen[0]);
  }
}
