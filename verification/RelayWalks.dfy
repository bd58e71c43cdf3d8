/** Walks in an acyclic graph of switches: between two switches there is at most
    one that never turns straight back. */
module RelayWalks {
  type Switch = nat

  /** The switches each one has a trunk to. */
  type Graph = map<Switch, set<Switch>>

  predicate Adjacent(g: Graph, s: Switch, t: Switch) {
    s in g && t in g[s]
  }

  /** Trunks run both ways. */
  ghost predicate Symmetric(g: Graph) {
    forall s, t :: Adjacent(g, s, t) ==> Adjacent(g, t, s)
  }

  type Walk = seq<Switch>

  /** A walk along trunks that never goes straight back where it came from. */
  predicate IsWalk(g: Graph, w: Walk) {
    && w != []
    && (forall i | 0 <= i < |w| - 1 :: Adjacent(g, w[i], w[i + 1]))
    && (forall i | 0 <= i < |w| - 2 :: w[i] != w[i + 2])
  }

  predicate Joins(g: Graph, w: Walk, s: Switch, t: Switch) {
    IsWalk(g, w) && w[0] == s && w[|w| - 1] == t
  }

  /** Acyclic: no walk of one step or more comes back to where it started. */
  ghost predicate Acyclic(g: Graph) {
    forall w :: IsWalk(g, w) && |w| > 1 ==> w[0] != w[|w| - 1]
  }

  function Reversed(w: Walk): (r: Walk)
    ensures |r| == |w| && forall i | 0 <= i < |w| :: r[i] == w[|w| - 1 - i]
  {
    seq(|w|, i requires 0 <= i < |w| => w[|w| - 1 - i])
  }

  lemma ReversedIsWalk(g: Graph, w: Walk)
    requires Symmetric(g) && IsWalk(g, w)
    ensures IsWalk(g, Reversed(w))
  {
    var r := Reversed(w);
    forall i | 0 <= i < |r| - 1 ensures Adjacent(g, r[i], r[i + 1]) {
      var j := |w| - 2 - i;
      assert Adjacent(g, w[j], w[j + 1]);
    }
    forall i | 0 <= i < |r| - 2 ensures r[i] != r[i + 2] {
      var j := |w| - 3 - i;
      assert w[j] != w[j + 2];
    }
  }

  lemma TailIsWalk(g: Graph, w: Walk)
    requires IsWalk(g, w) && |w| > 1
    ensures IsWalk(g, w[1..])
  {
  }

  /** Two walks out of one switch by different trunks, joined, make a walk. */
  lemma Hinge(g: Graph, p: Walk, q: Walk)
    requires Symmetric(g) && IsWalk(g, p) && IsWalk(g, q) && p[0] == q[0]
    requires |p| > 1 && |q| > 1 && p[1] != q[1]
    ensures Joins(g, Reversed(p) + q[1..], p[|p| - 1], q[|q| - 1])
  {
    var r := Reversed(p);
    var w := r + q[1..];
    ReversedIsWalk(g, p);
    forall i | 0 <= i < |w| - 1 ensures Adjacent(g, w[i], w[i + 1]) {
      if i < |r| - 1 {
        assert Adjacent(g, r[i], r[i + 1]);
      } else {
        var j := i - (|r| - 1);
        assert w[i] == q[j] && w[i + 1] == q[j + 1];
      }
    }
    forall i | 0 <= i < |w| - 2 ensures w[i] != w[i + 2] {
      if i < |r| - 2 {
        assert r[i] != r[i + 2];
      } else if i == |r| - 2 {
        assert w[i] == p[1] && w[i + 2] == q[1];
      } else {
        var j := i - (|r| - 1);
        assert w[i] == q[j] && w[i + 2] == q[j + 2];
      }
    }
  }

  lemma NotClosed(g: Graph, w: Walk)
    requires Acyclic(g) && IsWalk(g, w) && |w| > 1
    ensures w[0] != w[|w| - 1]
  {
  }

  /** Leaving by different trunks, two walks never meet again. */
  lemma HingeOpen(g: Graph, p: Walk, q: Walk)
    requires Symmetric(g) && Acyclic(g) && IsWalk(g, p) && IsWalk(g, q) && p[0] == q[0]
    requires |p| > 1 && |q| > 1 && p[1] != q[1]
    ensures p[|p| - 1] != q[|q| - 1]
  {
    Hinge(g, p, q);
    NotClosed(g, Reversed(p) + q[1..]);
  }

  /** In an acyclic graph there is one walk between two switches. */
  lemma {:induction false} UniqueWalk(g: Graph, p: Walk, q: Walk)
    requires Symmetric(g) && Acyclic(g) && IsWalk(g, p) && IsWalk(g, q)
    requires p[0] == q[0] && p[|p| - 1] == q[|q| - 1]
    ensures p == q
    decreases |p|
  {
    if |p| > 1 && |q| > 1 && p[1] == q[1] {
      TailIsWalk(g, p);
      TailIsWalk(g, q);
      UniqueWalk(g, p[1..], q[1..]);
      assert p == [p[0]] + p[1..] && q == [q[0]] + q[1..];
    } else if |p| > 1 && |q| > 1 {
      HingeOpen(g, p, q);
    } else if |p| > 1 {
      NotClosed(g, p);
    } else if |q| > 1 {
      NotClosed(g, q);
    }
  }

  /** One more step, anywhere but straight back. */
  predicate CanStep(g: Graph, w: Walk, t: Switch)
    requires w != []
  {
    Adjacent(g, w[|w| - 1], t) && (|w| > 1 ==> w[|w| - 2] != t)
  }

  lemma StepIsWalk(g: Graph, w: Walk, t: Switch)
    requires IsWalk(g, w) && CanStep(g, w, t)
    ensures IsWalk(g, w + [t])
  {
    var v := w + [t];
    forall i | 0 <= i < |v| - 1 ensures Adjacent(g, v[i], v[i + 1]) {
      assert i < |w| - 1 ==> Adjacent(g, w[i], w[i + 1]);
    }
    forall i | 0 <= i < |v| - 2 ensures v[i] != v[i + 2] {
      assert i < |w| - 2 ==> w[i] != w[i + 2];
    }
  }

  /** The neighbour through which a switch is reached: the first step of the walk to it. */
  ghost predicate Towards(g: Graph, s: Switch, t: Switch, home: Switch) {
    exists w :: Joins(g, w, s, home) && |w| > 1 && w[1] == t
  }

  lemma OneSide(g: Graph, s: Switch, t: Switch, home: Switch)
    requires Symmetric(g) && Acyclic(g) && Towards(g, s, t, home)
    ensures !Towards(g, t, s, home)
  {
    var p :| Joins(g, p, s, home) && |p| > 1 && p[1] == t;
    TailIsWalk(g, p);
    forall q | Joins(g, q, t, home) && |q| > 1 ensures q[1] != s {
      UniqueWalk(g, p[1..], q);
      assert q[1] == p[2] && p[0] != p[2];
    }
  }

  /** At each end of a trunk, a destination lies on one side or the other: it is
      reached through the trunk from exactly one of its two ends. */
  lemma TrunkDivides(g: Graph, s: Switch, t: Switch, home: Switch)
    requires Symmetric(g) && Acyclic(g) && Adjacent(g, s, t)
    requires exists w :: Joins(g, w, s, home)
    ensures Towards(g, s, t, home) != Towards(g, t, s, home)
  {
    if Towards(g, s, t, home) {
      OneSide(g, s, t, home);
    }
    if !Towards(g, s, t, home) {
      var w :| Joins(g, w, s, home);
      assert Adjacent(g, t, s);
      Prepend(g, t, w);
      assert Joins(g, [t] + w, t, home) && ([t] + w)[1] == s;
    }
  }

  lemma Prepend(g: Graph, t: Switch, w: Walk)
    requires IsWalk(g, w) && Adjacent(g, t, w[0]) && (|w| > 1 ==> w[1] != t)
    ensures IsWalk(g, [t] + w)
  {
    var v := [t] + w;
    forall i | 0 <= i < |v| - 1 ensures Adjacent(g, v[i], v[i + 1]) {
      assert i > 0 ==> Adjacent(g, w[i - 1], w[i]);
    }
    forall i | 0 <= i < |v| - 2 ensures v[i] != v[i + 2] {
      assert i > 0 ==> w[i - 1] != w[i + 1];
    }
  }

  /** The step towards a switch is unique. */
  lemma TowardsUnique(g: Graph, s: Switch, t: Switch, u: Switch, home: Switch)
    requires Symmetric(g) && Acyclic(g) && Towards(g, s, t, home) && Towards(g, s, u, home)
    ensures t == u
  {
    var p :| Joins(g, p, s, home) && |p| > 1 && p[1] == t;
    var q :| Joins(g, q, s, home) && |q| > 1 && q[1] == u;
    UniqueWalk(g, p, q);
  }

  /** Nobody steps away from home to get there. */
  lemma HomeStays(g: Graph, t: Switch, home: Switch)
    requires Acyclic(g)
    ensures !Towards(g, home, t, home)
  {
  }

  /** A neighbour is one step away. */
  lemma NeighbourTowards(g: Graph, s: Switch, t: Switch)
    requires Acyclic(g) && Adjacent(g, s, t)
    ensures Towards(g, s, t, t)
  {
    assert Joins(g, [s, t], s, t);
  }

  /** Whoever can be reached from one end of a trunk can be reached from the other. */
  lemma ReachAcross(g: Graph, s: Switch, t: Switch, home: Switch, w: Walk)
    requires Symmetric(g) && Adjacent(g, s, t) && Joins(g, w, s, home)
    ensures exists v :: Joins(g, v, t, home)
  {
    assert Adjacent(g, t, s);
    if |w| > 1 && w[1] == t {
      TailIsWalk(g, w);
      assert Joins(g, w[1..], t, home);
    } else {
      Prepend(g, t, w);
      assert Joins(g, [t] + w, t, home);
    }
  }
}
