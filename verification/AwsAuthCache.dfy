/** internal/api/webhook.go: the aws-auth ConfigMap is read through a cache with a five second
    lifetime, by any number of token reviews at once, while the ConfigMap is being edited. */
module AwsAuthCache {
  import opened Text
  import Resolver

  type Data = map<string, string>

  /** `ParseAWSAuth`: `None` for malformed YAML. */
  type Parser = Data -> Option<Resolver.AwsAuth>

  /** Five seconds, in nanoseconds. */
  const TTL: int := 5_000_000_000

  datatype Entry = Entry(parsed: Option<Resolver.AwsAuth>, fetched: int)

  /** What reading the ConfigMap gave: no answer, or its data if it exists. */
  datatype Reply = Failed | Got(data: Option<Data>)

  predicate Fresh(e: Entry, now: int) {
    now - e.fetched < TTL
  }

  /** What a read is worth, and the entry it leaves in the cache, if any. */
  function Worth(parse: Parser, reply: Reply): Option<Resolver.AwsAuth> {
    if reply.Got? && reply.data.Some? then parse(reply.data.value) else None
  }

  predicate Cacheable(parse: Parser, reply: Reply) {
    reply.Got? && (reply.data.Some? ==> parse(reply.data.value).Some?)
  }

  /** The aws-auth that a review gets from a cache with these entries, where a read would give `reply`. */
  function Consulted(parse: Parser, entries: map<string, Entry>, cluster: string, reply: Reply, now: int): Option<Resolver.AwsAuth> {
    if cluster in entries && Fresh(entries[cluster], now) then entries[cluster].parsed else Worth(parse, reply)
  }

  class Cache {
    const parse: Parser
    var entries: map<string, Entry>

    constructor (parse: Parser)
      ensures this.parse == parse && entries == map[]
    {
      this.parse := parse;
      this.entries := map[];
    }

    /** The part of loadAWSAuth before the read: a fresh entry answers at once. */
    method Lookup(cluster: string, now: int) returns (hit: Option<Option<Resolver.AwsAuth>>)
      ensures hit.Some? ==> cluster in entries && hit.value == entries[cluster].parsed && now < entries[cluster].fetched + 5_000_000_000
      ensures hit.None? ==> cluster !in entries || entries[cluster].fetched + 5_000_000_000 <= now
    {
      if cluster in entries && Fresh(entries[cluster], now) {
        return Some(entries[cluster].parsed);
      }
      return None;
    }

    /** The part after it. */
    method Conclude(cluster: string, reply: Reply, now: int) returns (result: Option<Resolver.AwsAuth>)
      modifies this
      ensures result == Worth(parse, reply)
      ensures entries == if Cacheable(parse, reply) then old(entries)[cluster := Entry(Worth(parse, reply), now)] else old(entries)
      ensures reply == Failed ==> result == None && entries == old(entries)
      ensures reply == Got(None) ==> result == None && entries == old(entries)[cluster := Entry(None, now)]
      ensures reply.Got? && reply.data.Some? && parse(reply.data.value) == None ==> result == None && entries == old(entries)
      ensures reply.Got? && reply.data.Some? && parse(reply.data.value).Some? ==>
                result == parse(reply.data.value) && entries == old(entries)[cluster := Entry(result, now)]
    {
      match reply
      case Failed => return None;
      case Got(None) =>
        entries := entries[cluster := Entry(None, now)];
        return None;
      case Got(Some(data)) =>
        var parsed := parse(data);
        if parsed.None? {
          return None;
        }
        entries := entries[cluster := Entry(parsed, now)];
        return parsed;
    }
  }

  /* ---------- Concurrent reviews of one cluster ---------- */

  /** A read, with the time the call began and the time the server looked. */
  datatype Reading = Reading(data: Option<Data>, began: int, at: int)

  datatype Cached = Cached(entry: Entry, reading: Reading)

  /** `finished` is when the reading an answer rests on was concluded. */
  datatype Review =
    | Asking(began: int)
    | Holding(reading: Reading)
    | Answered(result: Option<Resolver.AwsAuth>, now: int, source: Option<Reading>, finished: int)

  datatype State = State(now: int, config: Option<Data>, cache: Option<Cached>, reviews: map<nat, Review>)

  datatype Event =
    | Edit(config: Option<Data>)
    | Wait(nanoseconds: nat)
    | Begin(id: nat)
    | Read(id: nat, ok: bool)
    | Finish(id: nat)

  function Next(parse: Parser, s: State, e: Event): State {
    match e
    case Edit(config) => s.(config := config)
    case Wait(d) => s.(now := s.now + d)
    case Begin(id) =>
      if id in s.reviews then s
      else if s.cache.Some? && Fresh(s.cache.value.entry, s.now) then
        var c := s.cache.value;
        s.(reviews := s.reviews[id := Answered(c.entry.parsed, s.now, Some(c.reading), c.entry.fetched)])
      else s.(reviews := s.reviews[id := Asking(s.now)])
    case Read(id, ok) =>
      if id !in s.reviews || !s.reviews[id].Asking? then s
      else if ok then s.(reviews := s.reviews[id := Holding(Reading(s.config, s.reviews[id].began, s.now))])
      else s.(reviews := s.reviews[id := Answered(None, s.now, None, s.now)])
    case Finish(id) =>
      if id !in s.reviews || !s.reviews[id].Holding? then s
      else
        var r := s.reviews[id].reading;
        var result := Worth(parse, Got(r.data));
        State(s.now, s.config,
              if Cacheable(parse, Got(r.data)) then Some(Cached(Entry(result, s.now), r)) else s.cache,
              s.reviews[id := Answered(result, s.now, Some(r), s.now)])
  }

  /** What the end of a read does to the cache: an absent ConfigMap and a readable one are kept, a
      malformed one is not; a read that fails leaves it alone too, and answers nothing. */
  lemma ReadsCached(parse: Parser, s: State, id: nat, ok: bool)
    ensures Next(parse, s, Read(id, ok)).cache == s.cache
    ensures id in s.reviews && s.reviews[id].Asking? && !ok ==>
              Next(parse, s, Read(id, ok)).reviews[id] == Answered(None, s.now, None, s.now)
    ensures id in s.reviews && s.reviews[id].Holding? ==>
              var r := s.reviews[id].reading;
              var t := Next(parse, s, Finish(id));
              && (r.data == None ==> t.cache == Some(Cached(Entry(None, s.now), r)))
              && (r.data.Some? && parse(r.data.value) == None ==> t.cache == s.cache)
              && (r.data.Some? && parse(r.data.value).Some? ==> t.cache == Some(Cached(Entry(parse(r.data.value), s.now), r)))
              && t.reviews[id] == Answered(if r.data == None then None else parse(r.data.value), s.now, Some(r), s.now)
  {
  }

  function Run(parse: Parser, s: State, es: seq<Event>): State {
    if |es| == 0 then s else Next(parse, Run(parse, s, es[..|es| - 1]), es[|es| - 1])
  }

  /** The ConfigMap really had this content at the time of the reading, which lies in the run. */
  ghost predicate Truthful(parse: Parser, s: State, es: seq<Event>, r: Reading) {
    && r.began <= r.at
    && exists i :: 0 <= i <= |es| && Run(parse, s, es[..i]).config == r.data && Run(parse, s, es[..i]).now == r.at
  }

  ghost predicate ReviewInv(parse: Parser, s: State, es: seq<Event>, now: int, v: Review) {
    match v
    case Asking(began) => began <= now
    case Holding(r) => Truthful(parse, s, es, r) && r.at <= now
    case Answered(result, when, reading, finished) =>
      result.Some? ==>
        && reading.Some? && Truthful(parse, s, es, reading.value)
        && Worth(parse, Got(reading.value.data)) == result
        && reading.value.at <= finished <= when && when - finished < TTL
  }

  ghost predicate CacheInv(parse: Parser, s: State, es: seq<Event>, now: int, c: Cached) {
    && Truthful(parse, s, es, c.reading)
    && Worth(parse, Got(c.reading.data)) == c.entry.parsed
    && c.reading.at <= c.entry.fetched <= now
  }

  lemma TruthfulLater(parse: Parser, s: State, es: seq<Event>, e: Event, r: Reading)
    requires Truthful(parse, s, es, r)
    ensures Truthful(parse, s, es + [e], r)
  {
    var i :| 0 <= i <= |es| && Run(parse, s, es[..i]).config == r.data && Run(parse, s, es[..i]).now == r.at;
    assert (es + [e])[..i] == es[..i];
  }

  lemma TruthfulNow(parse: Parser, s: State, es: seq<Event>, began: int)
    requires began <= Run(parse, s, es).now
    ensures Truthful(parse, s, es, Reading(Run(parse, s, es).config, began, Run(parse, s, es).now))
  {
    assert es[..|es|] == es;
  }

  ghost predicate RunInv(parse: Parser, s: State, es: seq<Event>) {
    var t := Run(parse, s, es);
    && (t.cache.Some? ==> CacheInv(parse, s, es, t.now, t.cache.value))
    && (forall id :: id in t.reviews ==> ReviewInv(parse, s, es, t.now, t.reviews[id]))
  }

  lemma ReviewLater(parse: Parser, s: State, es: seq<Event>, e: Event, now: int, later: int, v: Review)
    requires ReviewInv(parse, s, es, now, v) && now <= later
    ensures ReviewInv(parse, s, es + [e], later, v)
  {
    match v
    case Asking(_) =>
    case Holding(r) => TruthfulLater(parse, s, es, e, r);
    case Answered(result, _, reading, _) =>
      if result.Some? { TruthfulLater(parse, s, es, e, reading.value); }
  }

  lemma StepInv(parse: Parser, s: State, es: seq<Event>, e: Event)
    requires RunInv(parse, s, es)
    ensures RunInv(parse, s, es + [e])
  {
    var all := es + [e];
    assert all[..|all| - 1] == es;
    var m, t := Run(parse, s, es), Run(parse, s, all);
    assert t == Next(parse, m, e) && m.now <= t.now;
    if m.cache.Some? {
      TruthfulLater(parse, s, es, e, m.cache.value.reading);
    }
    TruthfulNow(parse, s, es, m.now);
    forall id | id in t.reviews ensures ReviewInv(parse, s, all, t.now, t.reviews[id]) {
      if id in m.reviews && t.reviews[id] == m.reviews[id] {
        ReviewLater(parse, s, es, e, m.now, t.now, m.reviews[id]);
      } else {
        NewReview(parse, s, es, e, id);
      }
    }
    if t.cache != m.cache {
      var r := m.reviews[e.id].reading;
      TruthfulLater(parse, s, es, e, r);
    }
  }

  lemma NewReview(parse: Parser, s: State, es: seq<Event>, e: Event, id: nat)
    requires RunInv(parse, s, es)
    requires var m := Run(parse, s, es); var t := Next(parse, m, e);
             id in t.reviews && !(id in m.reviews && t.reviews[id] == m.reviews[id])
    ensures var t := Next(parse, Run(parse, s, es), e);
            ReviewInv(parse, s, es + [e], t.now, t.reviews[id])
  {
    var m := Run(parse, s, es);
    match e
    case Begin(_) =>
      if m.cache.Some? && Fresh(m.cache.value.entry, m.now) {
        TruthfulLater(parse, s, es, e, m.cache.value.reading);
      }
    case Read(_, ok) =>
      var began := m.reviews[id].began;
      TruthfulNow(parse, s, es, began);
      TruthfulLater(parse, s, es, e, Reading(m.config, began, m.now));
    case Finish(_) =>
      TruthfulLater(parse, s, es, e, m.reviews[id].reading);
    case _ =>
  }

  lemma {:induction false} RunKeeps(parse: Parser, s: State, es: seq<Event>)
    requires s.cache == None && s.reviews == map[]
    ensures RunInv(parse, s, es)
    decreases |es|
  {
    if |es| > 0 {
      RunKeeps(parse, s, es[..|es| - 1]);
      StepInv(parse, s, es[..|es| - 1], es[|es| - 1]);
      assert es[..|es| - 1] + [es[|es| - 1]] == es;
    }
  }

  /** The answer is what the ConfigMap parsed to after the first `i` events, which was less than
      five seconds plus the duration of the read (from `began` to when it was concluded) before. */
  ghost predicate ReadThen(parse: Parser, s: State, es: seq<Event>, i: int, began: int, answer: Review)
    requires answer.Answered?
  {
    && 0 <= i <= |es|
    && var past := Run(parse, s, es[..i]);
       && past.config.Some? && answer.result.Some? && parse(past.config.value) == answer.result
       && began <= past.now <= answer.finished <= answer.now
       && answer.now - past.now < TTL + (answer.finished - began)
  }

  /** Over every run of edits, reads, failures and concurrent reviews, an answer that is not nil is
      what the ConfigMap parsed to when it was read, and it was read less than five seconds plus the
      duration of that read before the answer. */
  lemma BoundedStaleness(parse: Parser, s: State, es: seq<Event>, id: nat)
    requires s.cache == None && s.reviews == map[]
    requires var t := Run(parse, s, es); id in t.reviews && t.reviews[id].Answered? && t.reviews[id].result.Some?
    ensures exists i, began :: ReadThen(parse, s, es, i, began, Run(parse, s, es).reviews[id])
  {
    RunKeeps(parse, s, es);
    var answer := Run(parse, s, es).reviews[id];
    var r := answer.source.value;
    var i :| 0 <= i <= |es| && Run(parse, s, es[..i]).config == r.data && Run(parse, s, es[..i]).now == r.at;
    assert ReadThen(parse, s, es, i, r.began, answer);
  }

  /** The five seconds alone are not a bound: a read that takes `d` keeps an overwritten ConfigMap in
      use until five seconds after the read has ended. */
  lemma StalenessIncludesTheRead(parse: Parser, data: Data, edited: Option<Data>, d: nat)
    requires parse(data).Some?
    ensures var s := State(0, Some(data), None, map[]);
            var es := [Begin(0), Read(0, true), Edit(edited), Wait(d), Finish(0), Wait((TTL - 1) as nat), Begin(1)];
            var t := Run(parse, s, es);
            1 in t.reviews && t.reviews[1].Answered? && t.reviews[1].result == parse(data) && t.reviews[1].now == d + TTL - 1
  {
    var s := State(0, Some(data), None, map[]);
    var es := [Begin(0), Read(0, true), Edit(edited), Wait(d), Finish(0), Wait((TTL - 1) as nat), Begin(1)];
    forall n | 0 <= n < |es| ensures Run(parse, s, es[..n + 1]) == Next(parse, Run(parse, s, es[..n]), es[n]) {
      assert es[..n + 1][..n] == es[..n];
    }
    assert es[..7] == es && es[..0] == [];
    var s2 := Run(parse, s, es[..2]);
    assert Run(parse, s, es[..1]) == s.(reviews := map[0 := Asking(0)]);
    assert s2 == s.(reviews := map[0 := Holding(Reading(Some(data), 0, 0))]);
    var s4 := Run(parse, s, es[..4]);
    assert Run(parse, s, es[..3]) == s2.(config := edited);
    assert s4 == s2.(config := edited, now := d);
    var s5 := Run(parse, s, es[..5]);
    assert s5.cache == Some(Cached(Entry(parse(data), d), Reading(Some(data), 0, 0))) && s5.now == d;
    var s6 := Run(parse, s, es[..6]);
    assert s6.cache == s5.cache && s6.now == d + TTL - 1 && 1 !in s6.reviews;
  }
}
