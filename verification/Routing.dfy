/** From a validated configuration to a delivered hint: the wiring of
    internal/app, the dispatcher and the HTTP hint parser have to agree on one
    channel map. */
module Routing {
  import opened Prelude
  import opened Text
  import opened Hints
  import opened Config

  // ------------------------------------------------------------------- wiring

  /** The pools built, by name: one per enabled config, identified with it. */
  ghost predicate Built(cfgs: seq<PoolConfig>, n: nat, pools: map<string, PoolConfig>)
    requires n <= |cfgs|
  {
    && (forall i :: 0 <= i < n && cfgs[i].enabled ==> cfgs[i].name in pools && pools[cfgs[i].name] == cfgs[i])
    && (forall name :: name in pools ==> exists i :: 0 <= i < n && cfgs[i].enabled && cfgs[i].name == name)
  }

  method NewPools(cfgs: seq<PoolConfig>) returns (pools: map<string, PoolConfig>)
    requires NameSorted(cfgs)
    ensures Built(cfgs, |cfgs|, pools)
  {
    pools := map[];
    for n := 0 to |cfgs|
      invariant Built(cfgs, n, pools)
    {
      var pc := cfgs[n];
      forall i | 0 <= i < n
        ensures cfgs[i].name != pc.name
      {
        if cfgs[i].name == pc.name {
          NamesDistinct(cfgs, i, n);
        }
      }
      if pc.enabled {
        pools := pools[pc.name := pc];
      }
    }
  }

  /** The channels the HTTP listener accepts. */
  method EnabledChannels(cfgs: seq<PoolConfig>) returns (channels: set<string>)
    ensures forall c :: c in channels <==> exists i :: 0 <= i < |cfgs| && cfgs[i].enabled && cfgs[i].channel == c
  {
    channels := {};
    for n := 0 to |cfgs|
      invariant forall c :: c in channels <==> exists i :: 0 <= i < n && cfgs[i].enabled && cfgs[i].channel == c
    {
      if cfgs[n].enabled {
        channels := channels + {cfgs[n].channel};
      }
    }
  }

  // --------------------------------------------------------------- dispatcher

  /** One channel's destination; no target means the pool is disabled. */
  datatype Route = Route(pool: string, target: Option<PoolConfig>)

  type Routes = map<string, Route>

  function RouteOf(c: PoolConfig, pools: map<string, PoolConfig>): Route {
    Route(c.name, if c.enabled && c.name in pools then Some(pools[c.name]) else None)
  }

  /** The route table of the first `n` configs: one route per claimed channel,
      that of its last claimant. */
  ghost predicate Routed(cfgs: seq<PoolConfig>, n: nat, pools: map<string, PoolConfig>, routes: Routes)
    requires n <= |cfgs|
  {
    forall c :: match Claimant(cfgs, n, c)
      case None => c !in routes
      case Some(i) => i < n && c in routes && routes[c] == RouteOf(cfgs[i], pools)
  }

  method NewDispatcher(cfgs: seq<PoolConfig>, pools: map<string, PoolConfig>) returns (routes: Routes)
    ensures Routed(cfgs, |cfgs|, pools, routes)
  {
    routes := map[];
    for n := 0 to |cfgs|
      invariant Routed(cfgs, n, pools, routes)
    {
      var c := cfgs[n];
      var r := Route(c.name, None);
      if c.enabled && c.name in pools {
        r := r.(target := Some(pools[c.name]));
      }
      routes := routes[c.channel := r];
    }
  }

  lemma {:induction false} ClaimantOf(cfgs: seq<PoolConfig>, n: nat, i: nat)
    requires i < n <= |cfgs| && DistinctChannels(cfgs, |cfgs|)
    ensures Claimant(cfgs, n, cfgs[i].channel) == Some(i)
  {
    if i < n - 1 {
      ClaimantOf(cfgs, n - 1, i);
    }
  }

  datatype Outcome = Delivered(to: PoolConfig, source: string, count: int) | UnknownPool | Disabled(pool: string)

  function Dispatch(routes: Routes, h: Hint): Outcome {
    if h.pool !in routes then UnknownPool
    else if routes[h.pool].target.None? then Disabled(routes[h.pool].pool)
    else Delivered(routes[h.pool].target.value, h.source, h.count)
  }

  /** In a valid configuration every pool's channel leads to that pool, to a
      live target exactly when it is enabled, and no other channel leads anywhere. */
  lemma DispatchAgrees(cfgs: seq<PoolConfig>, pools: map<string, PoolConfig>, routes: Routes, h: Hint)
    requires SoundPools(cfgs)
    requires Built(cfgs, |cfgs|, pools) && Routed(cfgs, |cfgs|, pools, routes)
    ensures forall i :: 0 <= i < |cfgs| && cfgs[i].channel == h.pool ==>
              Dispatch(routes, h) == if cfgs[i].enabled then Delivered(cfgs[i], h.source, h.count)
                                     else Disabled(cfgs[i].name)
    ensures Dispatch(routes, h) == UnknownPool <==> forall i :: 0 <= i < |cfgs| ==> cfgs[i].channel != h.pool
  {
    NoClaimant(cfgs, |cfgs|, h.pool);
    forall i | 0 <= i < |cfgs| && cfgs[i].channel == h.pool
      ensures h.pool in routes && routes[h.pool] == RouteOf(cfgs[i], pools)
    {
      ClaimantOf(cfgs, |cfgs|, i);
    }
  }

  // ------------------------------------------------------------- HTTP requests

  datatype Parsed = Accepted(hints: seq<Hint>) | Rejected(status: int)

  const BadRequest := 400
  const NotFound := 404

  /** One body entry: a non-negative count for a prefixed, known channel. */
  function ParseHint(prefix: string, channels: set<string>, key: string, count: int): Parsed {
    if count < 0 then Rejected(BadRequest)
    else
      match CutPrefix(key, prefix)
      case None => Rejected(NotFound)
      case Some(channel) =>
        if channel in channels then Accepted([Hint(SourceHTTP, channel, count)]) else Rejected(NotFound)
  }

  /** `order` is the order in which the runtime happens to walk the decoded map. */
  predicate Walks(order: seq<string>, raw: map<string, int>) {
    && (forall i :: 0 <= i < |order| ==> order[i] in raw)
    && (forall key :: key in raw ==> key in order)
    && (forall i, j :: 0 <= i < j < |order| ==> order[i] != order[j])
  }

  predicate EntryOk(prefix: string, channels: set<string>, key: string, count: int) {
    count >= 0 && prefix <= key && key[|prefix|..] in channels
  }

  /** The entries up to the n-th of the walk: every hint, or the status of the
      first entry that is refused. */
  function ParseFirst(prefix: string, channels: set<string>, raw: map<string, int>, order: seq<string>, n: nat): (r: Parsed)
    requires n <= |order| && Walks(order, raw)
    ensures r.Accepted? ==> |r.hints| == n
  {
    if n == 0 then Accepted([])
    else
      var before := ParseFirst(prefix, channels, raw, order, n - 1);
      if before.Rejected? then before
      else
        match ParseHint(prefix, channels, order[n - 1], raw[order[n - 1]])
        case Rejected(status) => Rejected(status)
        case Accepted(hints) => Accepted(before.hints + hints)
  }

  predicate Walked(body: Option<map<string, int>>, order: seq<string>) {
    body.Some? ==> Walks(order, body.value)
  }

  /** The whole body is checked before anything is forwarded. */
  function Parse(prefix: string, channels: set<string>, body: Option<map<string, int>>, order: seq<string>): (r: Parsed)
    requires Walked(body, order)
    ensures r.Accepted? ==> |r.hints| == |order|
  {
    if body.None? || body.value == map[] then Rejected(BadRequest)
    else ParseFirst(prefix, channels, body.value, order, |order|)
  }

  lemma EntryRule(prefix: string, channels: set<string>, key: string, count: int)
    ensures match ParseHint(prefix, channels, key, count)
            case Accepted(hints) =>
              && EntryOk(prefix, channels, key, count)
              && |hints| == 1 && hints[0] == Hint(SourceHTTP, hints[0].pool, count)
              && prefix + hints[0].pool == key && hints[0].pool in channels
            case Rejected(status) =>
              !EntryOk(prefix, channels, key, count) && status == if count < 0 then BadRequest else NotFound
  {
  }

  /** What the first `n` entries, all in order, are parsed into. */
  predicate Faithful(prefix: string, channels: set<string>, raw: map<string, int>, order: seq<string>, n: nat, hints: seq<Hint>)
    requires n <= |order| && Walks(order, raw)
  {
    && |hints| == n
    && forall i :: 0 <= i < n ==>
         && EntryOk(prefix, channels, order[i], raw[order[i]])
         && prefix + hints[i].pool == order[i]
         && hints[i] == Hint("http", hints[i].pool, raw[order[i]])
         && hints[i].pool in channels
  }

  /** Entry k is the first one refused, and `status` says why. */
  predicate Blamed(prefix: string, channels: set<string>, raw: map<string, int>, order: seq<string>, k: int, status: int)
    requires Walks(order, raw)
  {
    && 0 <= k < |order|
    && (forall i :: 0 <= i < k ==> EntryOk(prefix, channels, order[i], raw[order[i]]))
    && !EntryOk(prefix, channels, order[k], raw[order[k]])
    && status == if raw[order[k]] < 0 then 400 else 404
  }

  lemma OneMoreEntry(prefix: string, channels: set<string>, raw: map<string, int>, order: seq<string>, n: nat)
    requires n < |order| && Walks(order, raw) && ParseFirst(prefix, channels, raw, order, n).Accepted?
    ensures var parsed := ParseHint(prefix, channels, order[n], raw[order[n]]);
            ParseFirst(prefix, channels, raw, order, n + 1) ==
              if parsed.Rejected? then parsed
              else Accepted(ParseFirst(prefix, channels, raw, order, n).hints + parsed.hints)
  {
  }

  /** One more entry: one more faithful hint, or somebody to blame. */
  lemma {:induction false} EntryGrows(prefix: string, channels: set<string>, raw: map<string, int>, order: seq<string>, n: nat,
                                      hints: seq<Hint>)
    requires n < |order| && Walks(order, raw) && Faithful(prefix, channels, raw, order, n, hints)
    ensures match ParseHint(prefix, channels, order[n], raw[order[n]])
            case Accepted(more) => Faithful(prefix, channels, raw, order, n + 1, hints + more)
            case Rejected(status) => Blamed(prefix, channels, raw, order, n, status)
  {
    EntryRule(prefix, channels, order[n], raw[order[n]]);
  }

  lemma {:induction false} ParseFirstRule(prefix: string, channels: set<string>, raw: map<string, int>, order: seq<string>, n: nat)
    returns (k: nat)
    requires n <= |order| && Walks(order, raw)
    ensures match ParseFirst(prefix, channels, raw, order, n)
            case Accepted(hints) => Faithful(prefix, channels, raw, order, n, hints)
            case Rejected(status) => k < n && Blamed(prefix, channels, raw, order, k, status)
  {
    k := 0;
    if n > 0 {
      k := ParseFirstRule(prefix, channels, raw, order, n - 1);
      var before := ParseFirst(prefix, channels, raw, order, n - 1);
      if before.Accepted? {
        k := n - 1;
        OneMoreEntry(prefix, channels, raw, order, k);
        EntryGrows(prefix, channels, raw, order, k, before.hints);
      }
    }
  }

  predicate AllInOrder(prefix: string, channels: set<string>, body: Option<map<string, int>>) {
    && body.Some? && body.value != map[]
    && forall key :: key in body.value ==> EntryOk(prefix, channels, key, body.value[key])
  }

  /** A body is accepted exactly when it holds at least one entry and every entry
      is in order, and then each entry is one hint.  It is refused with 400 if it
      is no JSON object of counts or an empty one, else for its first offending
      entry: 400 if the count is negative, 404 if the key is unknown. */
  lemma ParseRule(prefix: string, channels: set<string>, body: Option<map<string, int>>, order: seq<string>)
    requires Walked(body, order)
    ensures var r := Parse(prefix, channels, body, order);
            && (r.Accepted? <==> AllInOrder(prefix, channels, body))
            && (r.Accepted? ==> Faithful(prefix, channels, body.value, order, |order|, r.hints))
            && (r.Rejected? ==>
                  if body.None? || body.value == map[] then r.status == 400
                  else exists k :: Blamed(prefix, channels, body.value, order, k, r.status))
  {
    if body.Some? && body.value != map[] {
      var _ := ParseFirstRule(prefix, channels, body.value, order, |order|);
    }
  }

  lemma {:induction false} RejectedStays(prefix: string, channels: set<string>, raw: map<string, int>, order: seq<string>, n: nat, m: nat)
    requires n <= m <= |order| && Walks(order, raw)
    requires ParseFirst(prefix, channels, raw, order, n).Rejected?
    ensures ParseFirst(prefix, channels, raw, order, m) == ParseFirst(prefix, channels, raw, order, n)
  {
    if n < m {
      RejectedStays(prefix, channels, raw, order, n, m - 1);
    }
  }

  method ParseHints(prefix: string, channels: set<string>, body: Option<map<string, int>>, order: seq<string>)
    returns (r: Parsed)
    requires Walked(body, order)
    ensures r == Parse(prefix, channels, body, order)
  {
    if body == None {
      return Rejected(BadRequest);
    }
    var raw := body.value;
    if |raw| == 0 {
      return Rejected(BadRequest);
    }
    var hints: seq<Hint> := [];
    for n := 0 to |order|
      invariant ParseFirst(prefix, channels, raw, order, n) == Accepted(hints)
    {
      var h := ParseHint(prefix, channels, order[n], raw[order[n]]);
      OneMoreEntry(prefix, channels, raw, order, n);
      if h.Rejected? {
        RejectedStays(prefix, channels, raw, order, n + 1, |order|);
        return h;
      }
      hints := hints + h.hints;
    }
    return Accepted(hints);
  }

  const StatusAccepted := 202
  const Unavailable := 503

  /** How many of `n` sends get through before the request context ends. */
  function Sent(sends: seq<bool>, n: nat): (k: nat)
    requires n <= |sends|
    ensures k <= n && (forall i :: 0 <= i < k ==> sends[i]) && (k < n ==> !sends[k])
  {
    if n == 0 || !sends[0] then 0 else 1 + Sent(sends[1..], n - 1)
  }

  datatype Reply = Reply(status: int, forwarded: seq<Hint>)

  /** The hint endpoint.  `sends[k]` tells whether the k-th send reached the
      dispatcher before the request was cancelled. */
  function Handled(prefix: string, channels: set<string>, body: Option<map<string, int>>,
                   order: seq<string>, sends: seq<bool>): Reply
    requires Walked(body, order) && |sends| >= |order|
  {
    match Parse(prefix, channels, body, order)
    case Rejected(status) => Reply(status, [])
    case Accepted(hints) =>
      var k := Sent(sends, |hints|);
      Reply(if k == |hints| then StatusAccepted else Unavailable, hints[..k])
  }

  method HandleHint(prefix: string, channels: set<string>, body: Option<map<string, int>>,
                    order: seq<string>, sends: seq<bool>)
    returns (status: int, forwarded: seq<Hint>)
    requires Walked(body, order) && |sends| >= |order|
    ensures Reply(status, forwarded) == Handled(prefix, channels, body, order, sends)
  {
    var parsed := ParseHints(prefix, channels, body, order);
    forwarded := [];
    if parsed.Rejected? {
      return parsed.status, [];
    }
    for k := 0 to |parsed.hints|
      invariant forwarded == parsed.hints[..k]
      invariant forall i :: 0 <= i < k ==> sends[i]
    {
      if !sends[k] {
        return Unavailable, forwarded;
      }
      forwarded := forwarded + [parsed.hints[k]];
    }
    return StatusAccepted, forwarded;
  }

  /** What a reply tells the caller: 202, that the body was in order and every
      entry of it forwarded; 503, that it was in order and the entries before the
      first failed send were forwarded; anything else, that nothing was. */
  lemma ReplyRule(prefix: string, channels: set<string>, body: Option<map<string, int>>,
                  order: seq<string>, sends: seq<bool>)
    requires Walked(body, order) && |sends| >= |order|
    ensures var reply := Handled(prefix, channels, body, order, sends);
            var k := |reply.forwarded|;
            && (AllInOrder(prefix, channels, body) <==> reply.status in {202, 503})
            && (reply.status !in {202, 503} ==> reply.status in {400, 404} && reply.forwarded == [])
            && (AllInOrder(prefix, channels, body) ==>
                  && k <= |order| && Faithful(prefix, channels, body.value, order, k, reply.forwarded)
                  && (forall i :: 0 <= i < k ==> sends[i])
                  && if reply.status == 202 then k == |order| else k < |order| && !sends[k])
  {
    ParseRule(prefix, channels, body, order);
  }

  /** The request was forwarded as a whole or not at all. */
  predicate AllOrNothing(prefix: string, channels: set<string>, body: Option<map<string, int>>,
                         order: seq<string>, sends: seq<bool>)
    requires Walked(body, order) && |sends| >= |order|
  {
    var reply := Handled(prefix, channels, body, order, sends);
    reply.forwarded == [] || reply.status == 202
  }

  lemma {:induction false} WalkLength(order: seq<string>, raw: map<string, int>)
    requires Walks(order, raw)
    ensures |order| == |raw|
  {
    DistinctCount(order);
    assert (set key | key in order) == raw.Keys;
  }

  /** The endpoint's promise, "fully accepted or fully rejected", holds of a body
      in order, whenever its request is cancelled, exactly if it has one entry. */
  lemma OneEntryIsAtomic(prefix: string, channels: set<string>, body: Option<map<string, int>>, order: seq<string>)
    requires Walked(body, order) && AllInOrder(prefix, channels, body)
    ensures (forall sends: seq<bool> :: |sends| >= |order| ==> AllOrNothing(prefix, channels, body, order, sends))
            <==> |body.value| == 1
  {
    ParseRule(prefix, channels, body, order);
    WalkLength(order, body.value);
    if |order| > 1 {
      var sends := seq(|order|, i => i == 0);
      assert sends[0] && !sends[1] && |sends[1..]| >= |order| - 1;
      assert Sent(sends, |order|) == 1;
      assert !AllOrNothing(prefix, channels, body, order, sends);
    }
  }

  /** Half a request: two valid entries, cancelled after the first. */
  lemma HalfForwarded()
    ensures var raw := map["jobs:a" := 1, "jobs:b" := 2];
            var order := ["jobs:a", "jobs:b"];
            && Walks(order, raw) && AllInOrder("jobs:", {"a", "b"}, Some(raw))
            && Handled("jobs:", {"a", "b"}, Some(raw), order, [true, false])
               == Reply(503, [Hint("http", "a", 1)])
  {
    var raw, order, sends := map["jobs:a" := 1, "jobs:b" := 2], ["jobs:a", "jobs:b"], [true, false];
    assert "jobs:a"[..5] == "jobs:" && "jobs:a"[5..] == "a" && "jobs:b"[..5] == "jobs:" && "jobs:b"[5..] == "b";
    assert order[0] != order[1] && Walks(order, raw);
    ReplyRule("jobs:", {"a", "b"}, Some(raw), order, sends);
    var reply := Handled("jobs:", {"a", "b"}, Some(raw), order, sends);
    assert |reply.forwarded| == 1;
    assert "jobs:" + reply.forwarded[0].pool == "jobs:a";
    assert reply.forwarded[0].pool == ("jobs:" + reply.forwarded[0].pool)[5..];
  }

  // --------------------------------------------------------------- end to end

  /** The hint went to the enabled pool listening on its channel. */
  ghost predicate Reached(cfgs: seq<PoolConfig>, h: Hint, o: Outcome) {
    exists i :: 0 <= i < |cfgs| && cfgs[i].enabled && cfgs[i].channel == h.pool
                && o == Delivered(cfgs[i], h.source, h.count)
  }

  /** Every hint on an accepted channel reaches the enabled pool listening there. */
  ghost predicate Wired(cfgs: seq<PoolConfig>, routes: Routes, channels: set<string>) {
    forall h: Hint :: h.pool in channels ==> Reached(cfgs, h, Dispatch(routes, h))
  }

  /** newApp: the route table and the accepted channels of a configuration. */
  method Wire(c: Config, walk: string -> DurationWalk)
    returns (errs: seq<Error>, routes: Routes, channels: set<string>, cfgs: seq<PoolConfig>)
    ensures Resolves(c, cfgs)
    ensures errs == [] <==> SoundPools(cfgs)
    ensures errs == [] ==> Wired(cfgs, routes, channels)
  {
    cfgs := ResolvedPools(c);
    errs := ValidatePools(cfgs, walk);
    var pools := NewPools(cfgs);
    routes := NewDispatcher(cfgs, pools);
    channels := EnabledChannels(cfgs);
    if errs == [] {
      forall h: Hint | h.pool in channels
        ensures Reached(cfgs, h, Dispatch(routes, h))
      {
        DispatchAgrees(cfgs, pools, routes, h);
      }
    }
  }

  method DispatchAll(routes: Routes, hints: seq<Hint>) returns (outcomes: seq<Outcome>)
    ensures |outcomes| == |hints|
    ensures forall i :: 0 <= i < |hints| ==> outcomes[i] == Dispatch(routes, hints[i])
  {
    outcomes := [];
    for k := 0 to |hints|
      invariant |outcomes| == k
      invariant forall i :: 0 <= i < k ==> outcomes[i] == Dispatch(routes, hints[i])
    {
      outcomes := outcomes + [Dispatch(routes, hints[k])];
    }
  }

  /** Entry `key` with `count` reached the enabled pool of `c` its key names. */
  predicate Served(c: Config, prefix: string, key: string, count: int, o: Outcome) {
    && o.Delivered?
    && o.to.name in c.pools && Layered(c, o.to)
    && o.to.enabled
    && prefix + o.to.channel == key
    && o.source == "http" && o.count == count
  }

  lemma ReachedIsServed(c: Config, cfgs: seq<PoolConfig>, prefix: string, key: string, h: Hint, o: Outcome)
    requires Resolves(c, cfgs) && Reached(cfgs, h, o)
    requires prefix + h.pool == key && h.source == SourceHTTP
    ensures Served(c, prefix, key, h.count, o)
  {
  }

  lemma ServedApart(c: Config, prefix: string, key: string, n: int, o: Outcome, key': string, n': int, o': Outcome)
    requires Served(c, prefix, key, n, o) && Served(c, prefix, key', n', o') && key != key'
    ensures o.to.name != o'.to.name
  {
  }

  /** Every outcome serves the entry of the body it belongs to. */
  predicate AllServed(c: Config, prefix: string, raw: map<string, int>, order: seq<string>, outcomes: seq<Outcome>)
    requires Walks(order, raw)
  {
    |outcomes| <= |order| &&
    forall i :: 0 <= i < |outcomes| ==> Served(c, prefix, order[i], raw[order[i]], outcomes[i])
  }

  lemma EveryoneServed(c: Config, cfgs: seq<PoolConfig>, routes: Routes, prefix: string, channels: set<string>,
                       raw: map<string, int>, order: seq<string>, hints: seq<Hint>, outcomes: seq<Outcome>)
    requires Resolves(c, cfgs) && Wired(cfgs, routes, channels) && Walks(order, raw)
    requires |outcomes| == |hints| <= |order| && Faithful(prefix, channels, raw, order, |hints|, hints)
    requires forall i :: 0 <= i < |hints| ==> outcomes[i] == Dispatch(routes, hints[i])
    ensures AllServed(c, prefix, raw, order, outcomes)
  {
    forall i | 0 <= i < |outcomes|
      ensures Served(c, prefix, order[i], raw[order[i]], outcomes[i])
    {
      ReachedIsServed(c, cfgs, prefix, order[i], hints[i], outcomes[i]);
    }
  }

  lemma NobodyTwice(c: Config, prefix: string, raw: map<string, int>, order: seq<string>, outcomes: seq<Outcome>)
    requires Walks(order, raw) && AllServed(c, prefix, raw, order, outcomes)
    ensures forall i :: 0 <= i < |outcomes| ==> outcomes[i].Delivered?
    ensures forall i, j :: 0 <= i < j < |outcomes| ==> outcomes[i].to.name != outcomes[j].to.name
  {
    forall i, j | 0 <= i < j < |outcomes|
      ensures outcomes[i].to.name != outcomes[j].to.name
    {
      ServedApart(c, prefix, order[i], raw[order[i]], outcomes[i], order[j], raw[order[j]], outcomes[j]);
    }
  }

  /** A request answered by an app built from `c`, end to end: wiring, parsing,
      dispatch.  Once the configuration validates, a 202 means that every entry
      of the body reached exactly one enabled pool, the one whose channel its key
      names, with its count; under any status, whatever was forwarded did, and no
      pool was hinted twice. */
  method HintOverHTTP(c: Config, walk: string -> DurationWalk, prefix: string, body: Option<map<string, int>>,
                      order: seq<string>, sends: seq<bool>)
    returns (errs: seq<Error>, status: int, outcomes: seq<Outcome>)
    requires Walked(body, order) && |sends| >= |order|
    ensures errs == [] && status == 202 ==> body.Some? && |outcomes| == |order|
    ensures errs == [] && body.Some? ==>
              && AllServed(c, prefix, body.value, order, outcomes)
              && (forall i :: 0 <= i < |outcomes| ==> outcomes[i].Delivered?)
              && (forall i, j :: 0 <= i < j < |outcomes| ==> outcomes[i].to.name != outcomes[j].to.name)
    ensures body.None? ==> outcomes == []
  {
    var routes, channels, cfgs;
    errs, routes, channels, cfgs := Wire(c, walk);
    if errs != [] {
      return errs, 0, [];
    }
    var forwarded;
    status, forwarded := HandleHint(prefix, channels, body, order, sends);
    ReplyRule(prefix, channels, body, order, sends);
    outcomes := DispatchAll(routes, forwarded);
    if body.Some? {
      EveryoneServed(c, cfgs, routes, prefix, channels, body.value, order, forwarded, outcomes);
      NobodyTwice(c, prefix, body.value, order, outcomes);
    }
  }
}
