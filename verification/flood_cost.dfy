/** What one LSP costs: each router accepts it at most once, and its transmissions are bounded. */
module FloodCost {
  import opened Collections
  import opened Words
  import opened Flooding

  /** How many of `packets` are copies of the LSP `k` of `s`. */
  function Copied(packets: seq<Lsp>, s: Id, k: u16): nat {
    if packets == [] then 0
    else Copied(packets[..|packets| - 1], s, k) + if Is(packets[|packets| - 1], s, k) then 1 else 0
  }

  predicate Is(m: Lsp, s: Id, k: u16) {
    m.source == s && m.number == k
  }

  lemma {:induction false} CopiedConcat(a: seq<Lsp>, b: seq<Lsp>, s: Id, k: u16)
    ensures Copied(a + b, s, k) == Copied(a, s, k) + Copied(b, s, k)
  {
    if b == [] {
      assert a + b == a;
    } else {
      CopiedConcat(a, b[..|b| - 1], s, k);
      assert (a + b)[..|a + b| - 1] == a + b[..|b| - 1];
    }
  }

  lemma CopiedWithout(a: seq<Lsp>, i: nat, s: Id, k: u16)
    requires i < |a|
    ensures Copied(a, s, k) == Copied(Without(a, i), s, k) + if Is(a[i], s, k) then 1 else 0
  {
    assert a == a[..i] + ([a[i]] + a[i + 1..]);
    CopiedConcat(a[..i], [a[i]] + a[i + 1..], s, k);
    CopiedConcat([a[i]], a[i + 1..], s, k);
    CopiedConcat(a[..i], a[i + 1..], s, k);
    assert [a[i]][..0] == [];
  }

  lemma {:induction false} CopiedAll(a: seq<Lsp>, s: Id, k: u16)
    ensures (forall m | m in a :: Is(m, s, k)) ==> Copied(a, s, k) == |a|
    ensures (forall m | m in a :: !Is(m, s, k)) ==> Copied(a, s, k) == 0
  {
    if a == [] {
    } else {
      CopiedAll(a[..|a| - 1], s, k);
    }
  }

  lemma CopiedCopies(source: Id, number: u16, from: Id, targets: set<Id>, s: Id, k: u16)
    ensures Copied(Copies(source, number, from, targets), s, k) ==
            if source == s && number == k then |targets| else 0
  {
    CopiedAll(Copies(source, number, from, targets), s, k);
  }

  /** What the routers `xs` would add to the packets in flight by passing an LSP on. */
  ghost function Spare(adj: Neighborhood, xs: set<Id>): int
    requires xs <= adj.Keys
  {
    if xs == {} then 0 else
    var x :| x in xs;
    |adj[x]| - 1 + Spare(adj, xs - {x})
  }

  lemma {:induction false} SpareRemove(adj: Neighborhood, xs: set<Id>, x: Id)
    requires xs <= adj.Keys && x in xs
    ensures Spare(adj, xs) == |adj[x]| - 1 + Spare(adj, xs - {x})
  {
    var y :| y in xs && Spare(adj, xs) == |adj[y]| - 1 + Spare(adj, xs - {y});
    if y != x {
      SpareRemove(adj, xs - {y}, x);
      SpareRemove(adj, xs - {x}, y);
      assert xs - {y} - {x} == xs - {x} - {y};
    }
  }

  /** The routers that have not accepted the LSP `k` of `s`. */
  ghost function Unaware(adj: Neighborhood, accepted: set<Acceptance>, s: Id, k: u16): set<Id> {
    set x | x in adj && Acceptance(x, s, k) !in accepted
  }

  /** Accepting leaves its mark in `max_sequence_num`. */
  ghost predicate Remembered(adj: Neighborhood, st: State)
    requires WellFormed(adj, st)
  {
    forall a | a in st.accepted ::
      a.router in adj && a.source in st.seen[a.router] && a.number <= st.seen[a.router][a.source]
  }

  /** The copies with number `k` that a source with `links` links has sent itself by its `count`-th LSP. */
  function Launched(count: nat, k: u16, links: nat): nat {
    if count == 0 then 0 else Launched(count - 1, k, links) + if Truncate(count - 1) == k then links else 0
  }

  lemma {:induction false} LaunchedOnce(count: nat, k: u16, links: nat)
    requires count <= U16_RANGE
    ensures Launched(count, k, links) == if k < count then links else 0
  {
    if count == 0 {
    } else {
      LaunchedOnce(count - 1, k, links);
    }
  }

  /** Packets delivered, in flight and still to come add up. */
  ghost predicate Balanced(adj: Neighborhood, st: State, s: Id, k: u16)
    requires WellFormed(adj, st) && s in adj
  {
    Copied(st.delivered, s, k) + Copied(st.flight, s, k) + Spare(adj, Unaware(adj, st.accepted, s, k)) ==
    Launched(st.count[s], k, |adj[s]|) + Spare(adj, adj.Keys)
  }

  lemma NextRemembers(adj: Neighborhood, st: State, a: Action)
    requires Symmetric(adj) && WellFormed(adj, st) && Enabled(adj, st, a) && Remembered(adj, st)
    ensures Remembered(adj, Next(adj, st, a))
  {
    if a.Deliver? { assert st.flight[a.index] in st.flight; }
  }

  lemma OriginateCopied(adj: Neighborhood, st: State, r: Id, s: Id, k: u16)
    requires Symmetric(adj) && WellFormed(adj, st) && r in adj
    ensures Copied(Next(adj, st, Originate(r)).flight, s, k) ==
            Copied(st.flight, s, k) + if r == s && Truncate(st.count[r]) == k then |adj[s]| else 0
  {
    var number := Truncate(st.count[r]);
    CopiedConcat(st.flight, Copies(r, number, r, adj[r]), s, k);
    CopiedCopies(r, number, r, adj[r], s, k);
  }

  lemma OriginateLaunched(adj: Neighborhood, st: State, r: Id, s: Id, k: u16)
    requires Symmetric(adj) && WellFormed(adj, st) && s in adj && r in adj
    ensures var st' := Next(adj, st, Originate(r));
            && st'.delivered == st.delivered && st'.accepted == st.accepted
            && Launched(st'.count[s], k, |adj[s]|) ==
                 Launched(st.count[s], k, |adj[s]|) + if r == s && Truncate(st.count[r]) == k then |adj[s]| else 0
  {
  }

  lemma OriginateBalances(adj: Neighborhood, st: State, r: Id, s: Id, k: u16)
    requires Symmetric(adj) && WellFormed(adj, st) && s in adj && r in adj && Balanced(adj, st, s, k)
    ensures Balanced(adj, Next(adj, st, Originate(r)), s, k)
  {
    OriginateCopied(adj, st, r, s, k);
    OriginateLaunched(adj, st, r, s, k);
  }

  lemma CopiedLast(packets: seq<Lsp>, m: Lsp, s: Id, k: u16)
    ensures Copied(packets + [m], s, k) == Copied(packets, s, k) + if Is(m, s, k) then 1 else 0
  {
    assert (packets + [m])[..|packets|] == packets;
  }

  predicate Accepted(st: State, m: Lsp)
    requires m.to in st.seen
  {
    Fresh(st.seen[m.to], m.source, m.number)
  }

  lemma DeliverCopied(adj: Neighborhood, st: State, i: nat, s: Id, k: u16)
    requires Symmetric(adj) && WellFormed(adj, st) && i < |st.flight|
    ensures var m := st.flight[i];
            var st' := Next(adj, st, Deliver(i));
            && m.to in adj
            && Copied(st'.delivered, s, k) == Copied(st.delivered, s, k) + (if Is(m, s, k) then 1 else 0)
            && Copied(st'.flight, s, k) == Copied(st.flight, s, k)
                 + (if Is(m, s, k) then (if Accepted(st, m) then |adj[m.to]| - 2 else -1) else 0)
  {
    var m := st.flight[i];
    assert m in st.flight;
    CopiedLast(st.delivered, m, s, k);
    CopiedWithout(st.flight, i, s, k);
    var targets := adj[m.to] - {m.from};
    assert |targets| == |adj[m.to]| - 1;
    CopiedConcat(Without(st.flight, i), Copies(m.source, m.number, m.to, targets), s, k);
    CopiedCopies(m.source, m.number, m.to, targets, s, k);
  }

  /** A router accepts a given LSP at most once. */
  lemma AcceptsOnce(adj: Neighborhood, st: State, i: nat)
    requires Symmetric(adj) && WellFormed(adj, st) && Remembered(adj, st) && i < |st.flight|
    ensures var m := st.flight[i];
            m.to in adj && (Accepted(st, m) ==> Acceptance(m.to, m.source, m.number) !in st.accepted)
  {
    var m := st.flight[i];
    assert m in st.flight;
  }

  lemma AcceptUnaware(adj: Neighborhood, accepted: set<Acceptance>, m: Lsp, s: Id, k: u16)
    ensures Unaware(adj, accepted + {Acceptance(m.to, m.source, m.number)}, s, k) ==
            Unaware(adj, accepted, s, k) - (if Is(m, s, k) then {m.to} else {})
  {
  }

  lemma DeliverUnaware(adj: Neighborhood, st: State, i: nat, s: Id, k: u16)
    requires Symmetric(adj) && WellFormed(adj, st) && i < |st.flight| && Remembered(adj, st)
    ensures var m := st.flight[i];
            var st' := Next(adj, st, Deliver(i));
            && m.to in adj
            && Spare(adj, Unaware(adj, st'.accepted, s, k)) == Spare(adj, Unaware(adj, st.accepted, s, k))
                 - (if Is(m, s, k) && Accepted(st, m) then |adj[m.to]| - 1 else 0)
  {
    var m := st.flight[i];
    AcceptsOnce(adj, st, i);
    if Accepted(st, m) {
      AcceptUnaware(adj, st.accepted, m, s, k);
      if Is(m, s, k) { SpareRemove(adj, Unaware(adj, st.accepted, s, k), m.to); }
    }
  }

  lemma DeliverBalances(adj: Neighborhood, st: State, i: nat, s: Id, k: u16)
    requires Symmetric(adj) && WellFormed(adj, st) && s in adj && i < |st.flight|
    requires Remembered(adj, st) && Balanced(adj, st, s, k)
    ensures Balanced(adj, Next(adj, st, Deliver(i)), s, k)
  {
    DeliverCopied(adj, st, i, s, k);
    DeliverUnaware(adj, st, i, s, k);
  }

  lemma NextBalances(adj: Neighborhood, st: State, a: Action, s: Id, k: u16)
    requires Symmetric(adj) && WellFormed(adj, st) && Enabled(adj, st, a) && s in adj
    requires Remembered(adj, st) && Balanced(adj, st, s, k)
    ensures Remembered(adj, Next(adj, st, a)) && Balanced(adj, Next(adj, st, a), s, k)
  {
    NextRemembers(adj, st, a);
    match a
    case Originate(r) => OriginateBalances(adj, st, r, s, k);
    case Deliver(i) => DeliverBalances(adj, st, i, s, k);
  }

  lemma {:induction false} RunBalances(adj: Neighborhood, st: State, actions: seq<Action>, s: Id, k: u16)
    requires Symmetric(adj) && WellFormed(adj, st) && Legal(adj, st, actions) && s in adj
    requires Remembered(adj, st) && Balanced(adj, st, s, k)
    ensures Balanced(adj, Run(adj, st, actions), s, k)
    decreases |actions|
  {
    if actions == [] {
    } else {
      NextBalances(adj, st, actions[0], s, k);
      RunBalances(adj, Next(adj, st, actions[0]), actions[1..], s, k);
    }
  }

  // ---- Counting links ----

  /** The links, each once, from the lower id to the higher. */
  ghost function Links(adj: Neighborhood): set<(Id, Id)> {
    set u, v | u in adj && v in adj[u] && u < v :: (u, v)
  }

  /** The links out of `xs`, seen from both ends. */
  ghost function Ends(adj: Neighborhood, xs: set<Id>): set<(Id, Id)>
    requires xs <= adj.Keys
  {
    set u, v | u in xs && v in adj[u] :: (u, v)
  }

  ghost function Star(u: Id, vs: set<Id>): set<(Id, Id)> {
    set v | v in vs :: (u, v)
  }

  lemma {:induction false} StarSize(u: Id, vs: set<Id>)
    ensures |Star(u, vs)| == |vs|
  {
    if vs != {} {
      var x :| x in vs;
      StarSize(u, vs - {x});
      assert Star(u, vs) == Star(u, vs - {x}) + {(u, x)};
    } else {
      assert Star(u, vs) == {};
    }
  }

  lemma EndsAdd(adj: Neighborhood, xs: set<Id>, x: Id)
    requires xs <= adj.Keys && x in xs
    ensures |Ends(adj, xs)| == |Ends(adj, xs - {x})| + |adj[x]|
  {
    StarSize(x, adj[x]);
    var rest, star := Ends(adj, xs - {x}), Star(x, adj[x]);
    forall e ensures e in Ends(adj, xs) <==> e in rest + star {
      assert e == (e.0, e.1);
    }
    assert Ends(adj, xs) == rest + star && rest !! star;
  }

  lemma {:induction false} EndsSize(adj: Neighborhood, xs: set<Id>)
    requires xs <= adj.Keys
    ensures |Ends(adj, xs)| == Spare(adj, xs) + |xs|
  {
    if xs == {} {
      assert Ends(adj, xs) == {};
    } else {
      var x :| x in xs && Spare(adj, xs) == |adj[x]| - 1 + Spare(adj, xs - {x});
      EndsSize(adj, xs - {x});
      EndsAdd(adj, xs, x);
    }
  }

  ghost function Flip(links: set<(Id, Id)>): set<(Id, Id)> {
    set l | l in links :: (l.1, l.0)
  }

  lemma {:induction false} FlipSize(links: set<(Id, Id)>)
    ensures |Flip(links)| == |links|
  {
    if links == {} {
    } else {
      var l :| l in links;
      FlipSize(links - {l});
      assert Flip(links) == Flip(links - {l}) + {(l.1, l.0)};
    }
  }

  /** Each link has two ends. */
  lemma Handshake(adj: Neighborhood)
    requires Symmetric(adj)
    ensures Spare(adj, adj.Keys) == 2 * |Links(adj)| - |adj|
  {
    EndsSize(adj, adj.Keys);
    FlipSize(Links(adj));
    EndsSplit(adj);
  }

  lemma EndsSplit(adj: Neighborhood)
    requires Symmetric(adj)
    ensures |Ends(adj, adj.Keys)| == |Links(adj)| + |Flip(Links(adj))|
  {
    var up, down := Links(adj), Flip(Links(adj));
    forall u, v ensures (u, v) in Ends(adj, adj.Keys) <==> (u, v) in up + down {
      if u in adj && v in adj[u] && v < u { assert (v, u) in up; }
    }
    forall e ensures e in Ends(adj, adj.Keys) <==> e in up + down {
      assert e == (e.0, e.1);
    }
    assert Ends(adj, adj.Keys) == up + down && up !! down;
  }

  /** The routers that have a link. */
  ghost function Connected(adj: Neighborhood, xs: set<Id>): set<Id>
    requires xs <= adj.Keys
  {
    set x | x in xs && adj[x] != {}
  }

  /** Only a router without links has less than nothing to spare. */
  lemma {:induction false} SpareAtLeast(adj: Neighborhood, xs: set<Id>)
    requires xs <= adj.Keys
    ensures Spare(adj, xs) >= |Connected(adj, xs)| - |xs|
  {
    if xs == {} {
    } else {
      var x :| x in xs && Spare(adj, xs) == |adj[x]| - 1 + Spare(adj, xs - {x});
      SpareAtLeast(adj, xs - {x});
      assert Connected(adj, xs) == Connected(adj, xs - {x}) + if adj[x] != {} then {x} else {};
    }
  }

  /** A part of the network has no more routers without links than the whole. */
  lemma MoreWithout(adj: Neighborhood, xs: set<Id>)
    requires xs <= adj.Keys
    ensures |xs| - |Connected(adj, xs)| <= |adj| - |Connected(adj, adj.Keys)|
  {
    var isolated, all := xs - Connected(adj, xs), adj.Keys - Connected(adj, adj.Keys);
    SubsetSize(Connected(adj, xs), xs);
    SubsetSize(Connected(adj, adj.Keys), adj.Keys);
    SubsetSize(isolated, all);
  }

  /** The copies of an LSP ever put on a link, delivered or not, are at most deg(source) + 2 * links - routers with
      links; so its flood ends. When its number is used again, at most deg(source) are added. */
  lemma FloodIsBounded(adj: Neighborhood, actions: seq<Action>, s: Id, k: u16)
    requires Symmetric(adj) && Legal(adj, Initial(adj), actions) && s in adj
    ensures var st := Run(adj, Initial(adj), actions);
            && Copied(st.delivered, s, k) + Copied(st.flight, s, k) <=
                 Launched(st.count[s], k, |adj[s]|) + 2 * |Links(adj)| - |Connected(adj, adj.Keys)|
            && (st.count[s] <= U16_RANGE ==> Launched(st.count[s], k, |adj[s]|) <= |adj[s]|)
  {
    var st := Run(adj, Initial(adj), actions);
    var unaware := Unaware(adj, st.accepted, s, k);
    assert Unaware(adj, {}, s, k) == adj.Keys;
    RunBalances(adj, Initial(adj), actions, s, k);
    SpareAtLeast(adj, unaware);
    MoreWithout(adj, unaware);
    Handshake(adj);
    if st.count[s] <= U16_RANGE {
      LaunchedOnce(st.count[s], k, |adj[s]|);
    }
  }
}
