/**
 * The data pulses that run between particles while the assistant works.
 * Each animation frame may spawn one pulse, then drops the pulses that
 * reached their target on an earlier frame, then moves the rest; a pulse
 * whose target is within one step is marked finished. Movement itself is
 * floating-point geometry and is given to a frame as the set of pulses that
 * arrive.
 */
module DataPulses {

  /** The spawn condition caps the list at five pulses. */
  const MaxPulses: nat := 5

  /** Pulses join two of the 150 particles. */
  const ParticleCount: nat := 150

  /** A pulse from particle `from` to particle `to`; `finished` is `progress == 1`. */
  datatype Pulse = Pulse(from: nat, to: nat, finished: bool)

  predicate WellFormed(p: Pulse) {
    p.from < ParticleCount && p.to < ParticleCount && p.from != p.to
  }

  /** At most five pulses, each between two distinct particles. */
  predicate Capped(ps: seq<Pulse>) {
    |ps| <= MaxPulses && forall k :: 0 <= k < |ps| ==> WellFormed(ps[k])
  }

  /** The spawn step: particles `a` and `b` are the two random picks, and
      `roll` is whether the 3% chance came up. */
  function Spawn(working: bool, roll: bool, a: nat, b: nat, ps: seq<Pulse>): (r: seq<Pulse>)
    requires a < ParticleCount && b < ParticleCount
    ensures r != ps <==> working && roll && |ps| < MaxPulses && a != b
    ensures r != ps ==> r == ps + [Pulse(a, b, false)]
  {
    if working && roll && |ps| < MaxPulses && a != b then ps + [Pulse(a, b, false)] else ps
  }

  /** `dataPulses.filter(p => p.progress < 1)`. */
  function Prune(ps: seq<Pulse>): (r: seq<Pulse>)
    ensures |r| <= |ps|
    ensures forall p :: p in r <==> p in ps && !p.finished
  {
    if ps == [] then []
    else if ps[0].finished then Prune(ps[1..])
    else [ps[0]] + Prune(ps[1..])
  }

  /** Pruning works pulse by pulse and keeps the order of what it keeps:
      pruning a concatenation prunes each part ... */
  lemma {:induction false} PruneAppend(a: seq<Pulse>, b: seq<Pulse>)
    ensures Prune(a + b) == Prune(a) + Prune(b)
  {
    if a == [] {
      assert a + b == b;
    } else {
      var c := a + b;
      assert c != [] && c[0] == a[0] && c[1..] == a[1..] + b;
      PruneAppend(a[1..], b);
      if !a[0].finished {
        assert [a[0]] + (Prune(a[1..]) + Prune(b)) == ([a[0]] + Prune(a[1..])) + Prune(b);
      }
    }
  }

  /** ... and a single pulse is kept exactly when it is unfinished. */
  lemma PruneSingle(q: Pulse)
    ensures Prune([q]) == if q.finished then [] else [q]
  {
    assert [q][1..] == [];
  }

  /** Pruning keeps every unfinished pulse as often as it occurs and drops
      every finished one. */
  lemma {:induction false} PruneCount(ps: seq<Pulse>)
    ensures forall q :: multiset(Prune(ps))[q] == if q.finished then 0 else multiset(ps)[q]
  {
    if ps != [] {
      PruneCount(ps[1..]);
      assert ps == [ps[0]] + ps[1..];
    }
  }

  /** Pruning twice is pruning once. */
  lemma {:induction false} PruneIdempotent(ps: seq<Pulse>)
    ensures Prune(Prune(ps)) == Prune(ps)
  {
    if ps != [] {
      PruneIdempotent(ps[1..]);
      if !ps[0].finished {
        var r := [ps[0]] + Prune(ps[1..]);
        assert r[0] == ps[0] && r[1..] == Prune(ps[1..]);
      }
    }
  }

  /** Pruning a list with no finished pulse changes nothing. */
  lemma {:induction false} PruneUnfinished(ps: seq<Pulse>)
    requires forall k :: 0 <= k < |ps| ==> !ps[k].finished
    ensures Prune(ps) == ps
  {
    if ps != [] {
      PruneUnfinished(ps[1..]);
      assert ps == [ps[0]] + ps[1..];
    }
  }

  /** One `update()` per pulse: the ones in `arrived` (by index) reach their target. */
  function Advance(ps: seq<Pulse>, arrived: set<nat>): (r: seq<Pulse>)
    ensures |r| == |ps|
    ensures forall k :: 0 <= k < |ps| ==> r[k].from == ps[k].from && r[k].to == ps[k].to
    ensures forall k :: 0 <= k < |ps| ==> (r[k].finished <==> ps[k].finished || k in arrived)
  {
    seq(|ps|, k requires 0 <= k < |ps| => ps[k].(finished := ps[k].finished || k in arrived))
  }

  /** The pulse part of one animation frame. */
  function Frame(working: bool, roll: bool, a: nat, b: nat, arrived: set<nat>, ps: seq<Pulse>): (r: seq<Pulse>)
    requires a < ParticleCount && b < ParticleCount
  {
    Advance(Prune(Spawn(working, roll, a, b, ps)), arrived)
  }

  /** A frame keeps the list capped; it can only grow while working, by at
      most one pulse, and only if the spawn condition holds; and the pulses it
      moves are exactly the unfinished ones it started from plus the new one. */
  lemma FrameCapped(working: bool, roll: bool, a: nat, b: nat, arrived: set<nat>, ps: seq<Pulse>)
    requires a < ParticleCount && b < ParticleCount
    ensures var r := Frame(working, roll, a, b, arrived, ps);
            && (Capped(ps) ==> Capped(r))
            && |r| <= |ps| + 1
            && (|r| > |ps| ==> working && roll && a != b)
            && (ps == [] && !working ==> r == [])
  {
    var s := Spawn(working, roll, a, b, ps);
    var p := Prune(s);
    var r := Advance(p, arrived);
    if Capped(ps) {
      assert |s| <= MaxPulses;
      forall k | 0 <= k < |r|
        ensures WellFormed(r[k])
      {
        assert p[k] in s;
      }
    }
  }

  /** What a frame moves: exactly the pulses that were not finished, in
      their order, followed by the one it spawns; none of them finished
      before this frame. */
  lemma FrameMovesUnfinished(working: bool, roll: bool, a: nat, b: nat, ps: seq<Pulse>)
    requires a < ParticleCount && b < ParticleCount
    ensures var p := Prune(Spawn(working, roll, a, b, ps));
            && p == Prune(ps) + (if working && roll && |ps| < MaxPulses && a != b then [Pulse(a, b, false)] else [])
            && (forall q :: q in p ==> !q.finished)
  {
    if working && roll && |ps| < MaxPulses && a != b {
      PruneAppend(ps, [Pulse(a, b, false)]);
      PruneSingle(Pulse(a, b, false));
    }
  }
}
