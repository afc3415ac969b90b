/** The staggered queries of `CAirspaceMonitor`, one per fast tick, and the lookup of the users
    behind callsigns. */
module Queries {
  import opened Basics

  datatype Queues = Queues(atis: seq<Callsign>, pilot: seq<Callsign>)

  /** What a tick reads: the connection, the online stations and the aircraft in range. */
  datatype Env = Env(connected: bool, online: set<Callsign>, inRange: set<Callsign>)

  datatype Query = NoQuery | AtisQuery(cs: Callsign) | PilotQuery(cs: Callsign)

  /** The queues after a tick, the pilot callsign it took off its queue, and the query it sent. */
  datatype Outcome = Outcome(next: Queues, taken: Option<Callsign>, query: Query)

  function Enqueued(queue: seq<Callsign>, more: seq<Callsign>): seq<Callsign> {
    if more == [] then queue
    else
      var n := |more| - 1;
      var before := Enqueued(queue, more[..n]);
      if more[n] in before then before else before + [more[n]]
  }

  function PilotTurn(q: Queues, env: Env): Outcome {
    if q.pilot == [] || !env.connected then Outcome(q, None, NoQuery)
    else Outcome(q.(pilot := q.pilot[1..]), Some(q.pilot[0]),
                 if q.pilot[0] in env.inRange then PilotQuery(q.pilot[0]) else NoQuery)
  }

  function Tick(q: Queues, env: Env): Outcome {
    if !env.connected then Outcome(q, None, NoQuery)
    else if q.atis == [] then PilotTurn(q, env)
    else if q.atis[0] in env.online then Outcome(q.(atis := q.atis[1..]), None, AtisQuery(q.atis[0]))
    else PilotTurn(q.(atis := q.atis[1..]), env)
  }

  datatype User = User(callsign: Callsign, name: string)

  /** The first entry of a callsign in a list of aircraft or stations with their users. */
  function FirstUser(list: seq<(Callsign, User)>, cs: Callsign): Option<User> {
    if list == [] then None else if list[0].0 == cs then Some(list[0].1) else FirstUser(list[1..], cs)
  }

  /** Where users come from: the own aircraft, which is not in the lists, aircraft in range,
      stations, and the web data by callsign. */
  datatype Sources = Sources(own: (Callsign, User), aircraft: seq<(Callsign, User)>, stations: seq<(Callsign, User)>,
                             web: Callsign -> seq<User>)

  function UserFor(s: Sources, cs: Callsign): User {
    if s.own.0.text != "" && s.own.0 == cs then s.own.1
    else if FirstUser(s.aircraft, cs).Some? then FirstUser(s.aircraft, cs).value
    else if FirstUser(s.stations, cs).Some? then FirstUser(s.stations, cs).value
    else if s.web(cs) != [] then s.web(cs)[0]
    else User(cs, "")
  }

  /** `users` holds for each of the callsigns, listed in some order, the one that belongs to it. */
  ghost predicate UsersOf(users: seq<User>, order: seq<Callsign>, callsigns: set<Callsign>, s: Sources) {
    Lists(order, callsigns) && |users| == |order| && forall i | 0 <= i < |users| :: users[i] == UserFor(s, order[i])
  }

  lemma {:induction false} FirstUserAt(list: seq<(Callsign, User)>, cs: Callsign, i: nat)
    requires i <= |list| && forall j | 0 <= j < i :: list[j].0 != cs
    requires i < |list| ==> list[i].0 == cs
    ensures FirstUser(list, cs) == if i < |list| then Some(list[i].1) else None
  {
    if i > 0 {
      FirstUserAt(list[1..], cs, i - 1);
    }
  }

  /** Where the user of a callsign comes from, `i` and `j` being its first places among aircraft and
      stations, or their lengths: from the own aircraft, the aircraft, the stations, the web, in this
      order, and else just the callsign. */
  lemma UserComesFrom(s: Sources, cs: Callsign, i: nat, j: nat)
    requires i <= |s.aircraft| && (forall k | 0 <= k < i :: s.aircraft[k].0 != cs)
    requires j <= |s.stations| && (forall k | 0 <= k < j :: s.stations[k].0 != cs)
    requires (i < |s.aircraft| ==> s.aircraft[i].0 == cs) && (j < |s.stations| ==> s.stations[j].0 == cs)
    ensures var user, own := UserFor(s, cs), cs == s.own.0 && cs.text != "";
            && (own ==> user == s.own.1)
            && (!own && i < |s.aircraft| ==> user == s.aircraft[i].1)
            && (!own && i == |s.aircraft| && j < |s.stations| ==> user == s.stations[j].1)
            && (!own && i == |s.aircraft| && j == |s.stations| ==>
                  user == if |s.web(cs)| > 0 then s.web(cs)[0] else User(cs, ""))
  {
    FirstUserAt(s.aircraft, cs, i);
    FirstUserAt(s.stations, cs, j);
  }

  /** Moving one callsign from the search list to the users found. */
  lemma UserFound(users: seq<User>, order: seq<Callsign>, found: set<Callsign>, s: Sources, cs: Callsign)
    requires UsersOf(users, order, found, s) && cs !in found
    ensures UsersOf(users + [UserFor(s, cs)], order + [cs], found + {cs}, s)
  {
    ListsGrow(order, found, cs);
  }

  class AirspaceMonitor {
    var queryAtis: seq<Callsign>
    var queryPilot: seq<Callsign>

    constructor ()
      ensures View() == Queues([], [])
    {
      queryAtis, queryPilot := [], [];
    }

    ghost function View(): Queues
      reads this
    {
      Queues(queryAtis, queryPilot)
    }

    method RequestAircraftDataUpdates(connected: bool, aircraft: seq<Callsign>)
      modifies this`queryPilot
      ensures queryPilot == if connected then Enqueued(old(queryPilot), aircraft) else old(queryPilot)
    {
      if !connected { return; }
      for i := 0 to |aircraft|
        invariant queryPilot == Enqueued(old(queryPilot), aircraft[..i])
      {
        assert aircraft[..i + 1][..i] == aircraft[..i];
        if aircraft[i] !in queryPilot { queryPilot := queryPilot + [aircraft[i]]; }
      }
      assert aircraft[..|aircraft|] == aircraft;
    }

    method RequestAtisUpdates(connected: bool, stations: seq<Callsign>)
      modifies this`queryAtis
      ensures queryAtis == if connected then Enqueued(old(queryAtis), stations) else old(queryAtis)
    {
      if !connected { return; }
      for i := 0 to |stations|
        invariant queryAtis == Enqueued(old(queryAtis), stations[..i])
      {
        assert stations[..i + 1][..i] == stations[..i];
        if stations[i] !in queryAtis { queryAtis := queryAtis + [stations[i]]; }
      }
      assert stations[..|stations|] == stations;
    }

    method SendNextStaggeredAtisQuery(env: Env) returns (sent: bool, query: Query)
      modifies this`queryAtis
      ensures queryAtis == if old(queryAtis) != [] && env.connected then old(queryAtis)[1..] else old(queryAtis)
      ensures sent == (old(queryAtis) != [] && env.connected && old(queryAtis)[0] in env.online)
      ensures query == if sent then AtisQuery(old(queryAtis)[0]) else NoQuery
    {
      sent, query := false, NoQuery;
      if queryAtis == [] { return; }
      if !env.connected { return; }
      var cs := queryAtis[0];
      queryAtis := queryAtis[1..];
      if cs !in env.online { return; }
      sent, query := true, AtisQuery(cs);
    }

    method SendNextStaggeredPilotDataQuery(env: Env) returns (query: Query, ghost taken: Option<Callsign>)
      modifies this`queryPilot
      ensures Outcome(View(), taken, query) == PilotTurn(old(View()), env)
    {
      query, taken := NoQuery, None;
      if queryPilot == [] { return; }
      if !env.connected { return; }
      var cs := queryPilot[0];
      queryPilot := queryPilot[1..];
      taken := Some(cs);
      if cs in env.inRange { query := PilotQuery(cs); }
    }

    method FastProcessing(env: Env) returns (query: Query, ghost taken: Option<Callsign>)
      modifies this`queryAtis, this`queryPilot
      ensures Outcome(View(), taken, query) == Tick(old(View()), env)
    {
      query, taken := NoQuery, None;
      if !env.connected { return; }
      var sent;
      sent, query := SendNextStaggeredAtisQuery(env);
      if !sent { query, taken := SendNextStaggeredPilotDataQuery(env); }
    }

    method ClearAtisQueries()
      modifies this`queryAtis
      ensures queryAtis == []
    {
      queryAtis := [];
    }

    method ClearPilotQueries()
      modifies this`queryPilot
      ensures queryPilot == []
    {
      queryPilot := [];
    }

    /** Exactly one user for each requested callsign, from the first source that knows it. */
    method GetUsersForCallsigns(callsigns: set<Callsign>, s: Sources) returns (users: seq<User>)
      ensures exists order :: UsersOf(users, order, callsigns, s)
    {
      users := [];
      ghost var order: seq<Callsign>, found: set<Callsign> := [], {};
      assert UsersOf(users, order, found, s);
      if callsigns == {} { return; }
      var searchList := callsigns;
      if s.own.0.text != "" && s.own.0 in searchList {
        UserFound(users, order, found, s, s.own.0);
        searchList, found := searchList - {s.own.0}, found + {s.own.0};
        users, order := users + [s.own.1], order + [s.own.0];
      }
      users, searchList, order, found := FindIn(s.aircraft, users, searchList, s, order, found);
      users, searchList, order, found := FindIn(s.stations, users, searchList, s, order, found);
      assert searchList + found == callsigns && searchList !! found;
      var rest := ListOf(searchList);
      for i := 0 to |rest|
        invariant UsersOf(users, order, found, s)
        invariant forall cs :: cs in found <==> cs in callsigns && cs !in rest[i..]
      {
        var byWeb := s.web(rest[i]);
        UserFound(users, order, found, s, rest[i]);
        users := users + [if byWeb == [] then User(rest[i], "") else byWeb[0]];
        order, found := order + [rest[i]], found + {rest[i]};
      }
      assert found == callsigns;
    }

    /** One pass over the aircraft or the stations: what is still searched for and listed here is
        found here. */
    method FindIn(list: seq<(Callsign, User)>, users: seq<User>, searchList: set<Callsign>, ghost s: Sources,
                  ghost order: seq<Callsign>, ghost found: set<Callsign>)
      returns (users': seq<User>, searchList': set<Callsign>, ghost order': seq<Callsign>, ghost found': set<Callsign>)
      requires UsersOf(users, order, found, s) && searchList !! found
      requires forall cs | cs in searchList && FirstUser(list, cs).Some? :: UserFor(s, cs) == FirstUser(list, cs).value
      ensures UsersOf(users', order', found', s) && searchList' !! found' && searchList' + found' == searchList + found
      ensures searchList' <= searchList && forall cs | cs in searchList' :: FirstUser(list, cs) == None
    {
      users', searchList', order', found' := users, searchList, order, found;
      for i := 0 to |list|
        invariant UsersOf(users', order', found', s)
        invariant searchList' !! found' && searchList' + found' == searchList + found
        invariant searchList' <= searchList
        invariant forall cs | cs in searchList' :: FirstUser(list, cs) == FirstUser(list[i..], cs)
      {
        if searchList' == {} { break; }
        var cs := list[i].0;
        if cs in searchList' {
          UserFound(users', order', found', s, cs);
          users', order', found' := users' + [list[i].1], order' + [cs], found' + {cs};
          searchList' := searchList' - {cs};
        }
      }
    }
  }

  /** What a tick sends: an ATIS query exactly for the first station queued, if it is online, and a
      pilot query exactly for the first aircraft queued, if it is in range and no ATIS query goes
      out; what it has looked at is off its queue. */
  lemma TickSends(q: Queues, env: Env, cs: Callsign)
    ensures var o, atis := Tick(q, env), q.atis != [] && q.atis[0] in env.online;
            && (o.query == AtisQuery(cs) <==> env.connected && atis && cs == q.atis[0])
            && (o.query == PilotQuery(cs) <==>
                env.connected && !atis && q.pilot != [] && cs == q.pilot[0] && cs in env.inRange)
            && o.next.atis == (if env.connected && q.atis != [] then q.atis[1..] else q.atis)
            && o.next.pilot == if env.connected && !atis && q.pilot != [] then q.pilot[1..] else q.pilot
  {
  }

  // ---------------------------------------------------------------------------
  // The queues over runs
  // ---------------------------------------------------------------------------

  datatype Event =
    | RequestPilot(connected: bool, aircraft: seq<Callsign>)
    | RequestAtis(connected: bool, stations: seq<Callsign>)
    | FastTick(env: Env)
    | ClearAtis
    | ClearPilot

  function Step(q: Queues, e: Event): Queues {
    match e
    case RequestPilot(connected, aircraft) => if connected then q.(pilot := Enqueued(q.pilot, aircraft)) else q
    case RequestAtis(connected, stations) => if connected then q.(atis := Enqueued(q.atis, stations)) else q
    case FastTick(env) => Tick(q, env).next
    case ClearAtis => q.(atis := [])
    case ClearPilot => q.(pilot := [])
  }

  function Run(q: Queues, es: seq<Event>): Queues
    decreases |es|
  {
    if es == [] then q else Run(Step(q, es[0]), es[1..])
  }

  predicate Distinct(s: seq<Callsign>) {
    forall i, j | 0 <= i < j < |s| :: s[i] != s[j]
  }

  lemma {:induction false} EnqueuedKeeps(queue: seq<Callsign>, more: seq<Callsign>)
    ensures queue <= Enqueued(queue, more) && |Enqueued(queue, more)| <= |queue| + |more|
    ensures forall cs :: cs in Enqueued(queue, more) <==> cs in queue || cs in more
    ensures Distinct(queue) ==> Distinct(Enqueued(queue, more))
  {
    if more != [] {
      EnqueuedKeeps(queue, more[..|more| - 1]);
    }
  }

  /** A request puts what it names on its queue, once and behind what is there, if connected. */
  lemma RequestQueues(q: Queues, connected: bool, callsigns: seq<Callsign>, cs: Callsign)
    ensures var pilot, atis := Step(q, RequestPilot(connected, callsigns)), Step(q, RequestAtis(connected, callsigns));
            && pilot.atis == q.atis && atis.pilot == q.pilot && q.pilot <= pilot.pilot && q.atis <= atis.atis
            && (cs in pilot.pilot <==> cs in q.pilot || (connected && cs in callsigns))
            && (cs in atis.atis <==> cs in q.atis || (connected && cs in callsigns))
  {
    EnqueuedKeeps(q.pilot, callsigns);
    EnqueuedKeeps(q.atis, callsigns);
  }

  /** Neither queue ever holds a callsign twice. */
  lemma {:induction false} QueuesStayDistinct(q: Queues, es: seq<Event>)
    requires Distinct(q.atis) && Distinct(q.pilot)
    ensures Distinct(Run(q, es).atis) && Distinct(Run(q, es).pilot)
    decreases |es|
  {
    if es != [] {
      if es[0].RequestPilot? {
        EnqueuedKeeps(q.pilot, es[0].aircraft);
      } else if es[0].RequestAtis? {
        EnqueuedKeeps(q.atis, es[0].stations);
      }
      QueuesStayDistinct(Step(q, es[0]), es[1..]);
    }
  }

  /** The pilot callsigns that the ticks of a run take off the queue, in order. */
  function Taken(q: Queues, es: seq<Event>): seq<Callsign>
    decreases |es|
  {
    if es == [] then []
    else
      var taken := if es[0].FastTick? then Tick(q, es[0].env).taken else None;
      (if taken.Some? then [taken.value] else []) + Taken(Step(q, es[0]), es[1..])
  }

  function Ticks(es: seq<Event>): nat {
    if es == [] then 0 else (if es[0].FastTick? then 1 else 0) + Ticks(es[1..])
  }

  /** How many stations the requests of a run name. */
  function Requested(es: seq<Event>): nat {
    if es == [] then 0 else (if es[0].RequestAtis? then |es[0].stations| else 0) + Requested(es[1..])
  }

  /** The monitor stays connected and the pilot queue is not cleared. */
  predicate Serving(es: seq<Event>) {
    forall e | e in es :: !e.ClearPilot? && (e.FastTick? ==> e.env.connected)
  }

  /** Bounded waiting: whatever stations go on or offline and whatever is requested meanwhile, the
      callsign at position `k` has had its turn after as many ticks as there are ATIS queries
      queued or requested, and pilot queries ahead of it, and one more. */
  lemma {:induction false} PilotHasItsTurn(q: Queues, es: seq<Event>, k: nat)
    requires Serving(es) && k < |q.pilot|
    requires Ticks(es) >= |q.atis| + Requested(es) + k + 1
    ensures q.pilot[k] in Taken(q, es)
    decreases |es|
  {
    var q', e, rest := Step(q, es[0]), es[0], es[1..];
    if e.RequestPilot? {
      EnqueuedKeeps(q.pilot, e.aircraft);
      PilotHasItsTurn(q', rest, k);
    } else if e.RequestAtis? {
      EnqueuedKeeps(q.atis, e.stations);
      PilotHasItsTurn(q', rest, k);
    } else if e.FastTick? && Tick(q, e.env).taken.Some? {
      if k > 0 {
        PilotHasItsTurn(q', rest, k - 1);
      }
    } else {
      PilotHasItsTurn(q', rest, k);
    }
  }

  /** The bound is tight: with all queued stations online, nobody has a turn before. */
  lemma {:induction false} NoEarlierTurn(q: Queues, es: seq<Event>, k: nat)
    requires forall e | e in es :: e.FastTick? && forall cs | cs in q.atis :: cs in e.env.online
    requires Distinct(q.pilot) && k < |q.pilot| && |es| <= |q.atis| + k
    ensures q.pilot[k] !in Taken(q, es)
    decreases |es|
  {
    if es != [] {
      var o := Tick(q, es[0].env);
      if o.taken.Some? {
        if k > 0 {
          NoEarlierTurn(o.next, es[1..], k - 1);
        }
      } else {
        NoEarlierTurn(o.next, es[1..], k);
      }
    }
  }

  /** A station requested before every tick keeps all pilots waiting for ever. */
  function AtisFirst(station: Callsign, n: nat): seq<Event> {
    if n == 0 then []
    else [RequestAtis(true, [station]), FastTick(Env(true, {station}, {}))] + AtisFirst(station, n - 1)
  }

  lemma {:induction false} PilotsStarve(station: Callsign, pilot: seq<Callsign>, n: nat)
    ensures Run(Queues([], pilot), AtisFirst(station, n)) == Queues([], pilot)
    ensures Taken(Queues([], pilot), AtisFirst(station, n)) == []
  {
    if n > 0 {
      var es, q := AtisFirst(station, n), Queues([], pilot);
      assert [station][..0] == [];
      assert Enqueued([], []) == [] && Enqueued([], [station]) == [station];
      assert Step(q, es[0]) == Queues([station], pilot);
      assert es[1..][0] == es[1] && es[1..][1..] == AtisFirst(station, n - 1);
      assert Step(Queues([station], pilot), es[1]) == q;
      PilotsStarve(station, pilot, n - 1);
    }
  }
}
