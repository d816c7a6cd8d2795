/** The route table and the synthetic keys it hands out. Operations run one at a time. */
module Routes {
  import opened Blobs

  datatype Key = Key(ip: Bytes, port: nat)
  datatype Route = Route(endpoint: Bytes, hints: seq<Key>)
  datatype Scope = Explicit | Directory

  datatype Op = Publish(key: Key, route: Route) | Register(key: Key, route: Route)

  // ---- what a history means --------------------------------------------------------------------

  /** The last registration that `about` picks, if any. */
  function LastRegistered(ops: seq<Op>, about: Op -> bool): Option<Route> {
    if ops == [] then None
    else
      var op := ops[|ops| - 1];
      if op.Register? && about(op) then Some(op.route) else LastRegistered(ops[..|ops| - 1], about)
  }

  /** The first publication that `about` picks, if any. */
  function FirstPublished(ops: seq<Op>, about: Op -> bool): Option<Route> {
    if ops == [] then None
    else if ops[0].Publish? && about(ops[0]) then Some(ops[0].route)
    else FirstPublished(ops[1..], about)
  }

  /** What to find: the last registration, else the first publication. */
  function Known(ops: seq<Op>, about: Op -> bool): Option<(Route, Scope)> {
    match (LastRegistered(ops, about), FirstPublished(ops, about))
    case (Some(r), _) => Some((r, Explicit))
    case (None, Some(r)) => Some((r, Directory))
    case _ => None
  }

  lemma {:induction false} FirstSnoc(ops: seq<Op>, op: Op, about: Op -> bool)
    ensures FirstPublished(ops + [op], about) ==
            if FirstPublished(ops, about).Some? then FirstPublished(ops, about)
            else if op.Publish? && about(op) then Some(op.route) else None
    decreases |ops|
  {
    var all := ops + [op];
    if ops == [] { assert all[1..] == []; }
    else {
      assert all[1..] == ops[1..] + [op];
      FirstSnoc(ops[1..], op, about);
    }
  }

  /** One more operation: a registration wins, a publication only where nothing is known. */
  lemma KnownSnoc(ops: seq<Op>, op: Op, about: Op -> bool)
    ensures Known(ops + [op], about) ==
            if !about(op) then Known(ops, about)
            else if op.Register? then Some((op.route, Explicit))
            else if Known(ops, about).Some? then Known(ops, about) else Some((op.route, Directory))
  {
    assert (ops + [op])[..|ops + [op]| - 1] == ops;
    FirstSnoc(ops, op, about);
  }

  function AboutKey(k: Key): Op -> bool { (op: Op) => op.key == k }
  function AboutPeer(e: Bytes): Op -> bool { (op: Op) => op.route.endpoint == e }

  function RouteOf(o: Option<(Route, Scope)>): Option<Route> { match o case None => None case Some((r, _)) => Some(r) }

  /** What a history has to say of what `about` picks, place by place: the route of a registration
      with none after it; with no registration at all, that of a publication with none before it. */
  ghost predicate Says(ops: seq<Op>, about: Op -> bool, r: Route, scope: Scope) {
    if scope.Explicit? then exists i :: Picked(ops, about, i, true, r) && NonePicked(ops[i + 1..], about, true)
    else
      && NonePicked(ops, about, true)
      && exists i :: Picked(ops, about, i, false, r) && NonePicked(ops[..i], about, false)
  }

  predicate Picked(ops: seq<Op>, about: Op -> bool, i: int, reg: bool, r: Route) {
    0 <= i < |ops| && ops[i].Register? == reg && about(ops[i]) && ops[i].route == r
  }

  predicate NonePicked(ops: seq<Op>, about: Op -> bool, reg: bool) {
    forall k :: 0 <= k < |ops| ==> !(ops[k].Register? == reg && about(ops[k]))
  }

  lemma {:induction false} LastPlace(ops: seq<Op>, about: Op -> bool) returns (i: int)
    ensures match LastRegistered(ops, about)
            case None => NonePicked(ops, about, true)
            case Some(r) => Picked(ops, about, i, true, r) && NonePicked(ops[i + 1..], about, true)
  {
    i := |ops| - 1;
    if ops != [] {
      var op := ops[i];
      if !(op.Register? && about(op)) {
        var init := ops[..i];
        assert ops == init + [op];
        i := LastPlace(init, about);
        if LastRegistered(init, about).Some? {
          var tail, all := init[i + 1..], ops[i + 1..];
          assert all == tail + [op];
          forall k | 0 <= k < |all| ensures !(all[k].Register? && about(all[k])) {
            if k < |tail| { assert all[k] == tail[k]; }
          }
        }
      }
    }
  }

  lemma {:induction false} FirstPlace(ops: seq<Op>, about: Op -> bool) returns (i: int)
    ensures match FirstPublished(ops, about)
            case None => NonePicked(ops, about, false)
            case Some(r) => Picked(ops, about, i, false, r) && NonePicked(ops[..i], about, false)
    decreases |ops|
  {
    i := 0;
    if ops != [] && !(ops[0].Publish? && about(ops[0])) {
      var rest := ops[1..];
      assert ops == [ops[0]] + rest;
      i := FirstPlace(rest, about);
      if FirstPublished(rest, about).Some? { assert ops[..i + 1] == [ops[0]] + rest[..i]; }
      i := i + 1;
    }
  }

  /** What is known is what the history says, and nothing is known only if it says nothing. */
  lemma KnownExactly(ops: seq<Op>, about: Op -> bool)
    ensures match Known(ops, about)
            case Some((r, scope)) => Says(ops, about, r, scope)
            case None => forall k :: 0 <= k < |ops| ==> !about(ops[k])
  {
    hide LastRegistered, FirstPublished;
    var i := LastPlace(ops, about);
    var j := FirstPlace(ops, about);
  }

  // ---- the table ---------------------------------------------------------------------------------

  const FIRST_PORT := 45601
  const PORTS := 15000
  const U16 := 0x1_0000
  const DRAWS := 20536

  function PortOf(counter: nat): nat { FIRST_PORT + counter % PORTS }

  /** The port of the `i`-th draw from a counter value. */
  function Drawn(counter: nat, i: nat): nat { PortOf((counter + i) % U16) }

  class RouteTable {
    var inner: map<Key, (Route, Scope)>
    var byPeer: map<Bytes, Route>
    var counter: nat
    ghost var history: seq<Op>

    /** Both maps say what the history says. */
    ghost predicate Valid()
      reads this
    {
      && counter < U16
      && (forall k :: Looked(k) == Known(history, AboutKey(k)))
      && (forall e :: LookedPeer(e) == RouteOf(Known(history, AboutPeer(e))))
    }

    function Looked(k: Key): Option<(Route, Scope)>
      reads this
    {
      if k in inner then Some(inner[k]) else None
    }

    function LookedPeer(e: Bytes): Option<Route>
      reads this
    {
      if e in byPeer then Some(byPeer[e]) else None
    }

    constructor ()
      ensures Valid() && history == [] && inner == map[]
    {
      inner, byPeer, counter, history := map[], map[], FIRST_PORT, [];
    }

    method PublishRoute(key: Key, route: Route)
      requires Valid()
      modifies this
      ensures Valid() && history == old(history) + [Publish(key, route)] && counter == old(counter)
    {
      var op := Publish(key, route);
      forall k { KnownSnoc(history, op, AboutKey(k)); }
      forall e { KnownSnoc(history, op, AboutPeer(e)); }
      hide Known;
      if route.endpoint !in byPeer { byPeer := byPeer[route.endpoint := route]; }
      if key !in inner { inner := inner[key := (route, Directory)]; }
      history := history + [op];
    }

    method RegisterExplicitRoute(key: Key, route: Route)
      requires Valid()
      modifies this
      ensures Valid() && history == old(history) + [Register(key, route)] && counter == old(counter)
    {
      var op := Register(key, route);
      forall k { KnownSnoc(history, op, AboutKey(k)); }
      forall e { KnownSnoc(history, op, AboutPeer(e)); }
      hide Known;
      byPeer := byPeer[route.endpoint := route];
      inner := inner[key := (route, Explicit)];
      history := history + [op];
    }

    /** Whatever happened before: the last registration for the key, else the first publication. */
    method ResolveRoute(key: Key) returns (r: Option<(Route, Scope)>)
      requires Valid()
      ensures r == Known(history, AboutKey(key))
      ensures r.Some? ==> Says(history, AboutKey(key), r.value.0, r.value.1)
      ensures r.None? ==> forall k :: 0 <= k < |history| ==> history[k].key != key
    {
      hide Says, Known;
      r := Looked(key);
      KnownExactly(history, AboutKey(key));
    }

    method ResolvePeer(endpoint: Bytes) returns (r: Option<Route>)
      requires Valid()
      ensures r == RouteOf(Known(history, AboutPeer(endpoint)))
      ensures r.Some? ==> exists scope :: Says(history, AboutPeer(endpoint), r.value, scope)
      ensures r.None? ==> forall k :: 0 <= k < |history| ==> history[k].route.endpoint != endpoint
    {
      hide Says, Known;
      r := LookedPeer(endpoint);
      KnownExactly(history, AboutPeer(endpoint));
    }

    /** next_synth_key: the wrapping counter is drawn until a key is free. */
    method NextSynthKey(ip: Bytes, ghost free: nat) returns (key: Key, ghost draws: nat)
      requires Valid() && free < PORTS && Key(ip, FIRST_PORT + free) !in inner
      modifies this`counter
      ensures Valid() && key !in inner && key.ip == ip && FIRST_PORT <= key.port < FIRST_PORT + PORTS
      ensures 1 <= draws <= DRAWS && counter == (old(counter) + draws) % U16
      ensures key.port == Drawn(old(counter), draws - 1)
      ensures forall i :: 0 <= i < draws - 1 ==> Key(ip, Drawn(old(counter), i)) in inner
    {
      draws := 0;
      ghost var hit := NextDraw(counter, free);
      DrawStep(counter, hit);
      hide Known, Drawn, Valid;
      while true
        invariant counter == (old(counter) + draws) % U16 && draws <= hit
        invariant forall i :: 0 <= i < draws ==> Key(ip, Drawn(old(counter), i)) in inner
        decreases hit - draws
      {
        var cur := counter;
        DrawStep(old(counter), draws);
        counter := (counter + 1) % U16;
        draws := draws + 1;
        key := Key(ip, FIRST_PORT + cur % PORTS);
        if key !in inner { return; }
        assert key.port == Drawn(old(counter), draws - 1) && draws - 1 != hit;
      }
    }

    method RegisterPeer(endpoint: Bytes, hints: seq<Key>, ip: Bytes, ghost free: nat) returns (key: Key)
      requires Valid() && free < PORTS && Key(ip, FIRST_PORT + free) !in inner
      modifies this
      ensures Valid() && key !in old(inner) && history == old(history) + [Register(key, Route(endpoint, hints))]
    {
      ghost var draws;
      key, draws := NextSynthKey(ip, free);
      RegisterExplicitRoute(key, Route(endpoint, hints));
    }
  }

  // ---- how long drawing takes --------------------------------------------------------------------

  /** From any counter value, any of the ports comes up within 20536 draws: at most the 15000 of
      one round, and the wrap at 65536 cuts a round short once. */
  lemma NextDraw(counter: nat, residue: nat) returns (i: nat)
    requires counter < U16 && residue < PORTS
    ensures i < DRAWS && ((counter + i) % U16) % PORTS == residue
  {
    var q, base := counter % PORTS, counter - counter % PORTS;
    assert base == 0 || base == 15000 || base == 30000 || base == 45000 || base == 60000;
    var v := if q <= residue then base + residue else base + PORTS + residue;
    if v < U16 {
      i := v - counter;
      assert (counter + i) % U16 == v;
    } else {
      i := U16 - counter + residue;
      assert (counter + i) % U16 == residue;
    }
  }

  /** One draw: the key it gives, and the counter it leaves. */
  lemma DrawStep(counter: nat, i: nat)
    ensures Drawn(counter, i) == FIRST_PORT + ((counter + i) % U16) % PORTS
    ensures ((counter + i) % U16 + 1) % U16 == (counter + i + 1) % U16
  {
    var q, r := (counter + i) / U16, (counter + i) % U16;
    assert counter + i == q * U16 + r;
    if r + 1 == U16 { WrapAdd(q + 1, 0); } else { WrapAdd(q, r + 1); }
  }

  lemma WrapAdd(q: nat, r: nat)
    requires r < U16
    ensures (q * U16 + r) % U16 == r
  {
  }

  /** No smaller bound will do: with one port free, the counter can be just past its last turn. */
  lemma DrawsTight(residue: nat, i: nat)
    requires 5536 <= residue < PORTS && i < DRAWS - 1
    ensures (((45001 + residue) % U16 + i) % U16) % PORTS != residue
  {
    var c := 45001 + residue;
    if c + i < U16 {
      assert (c + i) % U16 == c + i;
      if c + i >= 60000 { assert (c + i) % PORTS == c + i - 60000; } else { assert (c + i) % PORTS == c + i - 45000; }
    } else {
      assert (c + i) % U16 == c + i - U16;
      assert c + i - U16 < residue;
    }
  }
}
