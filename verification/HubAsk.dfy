/**
Questions to computers and the replies to them. Any number are asked at once,
each on a goroutine of its own; replies arrive late, twice, from other accounts,
or not at all. Delivering one takes two steps: finding the waiter, and putting
the reply in its channel, which holds one.
*/
module HubAsk {
  import opened Common

  type UserId = string
  type AskId = nat
  type DeliveryId = nat

  const UINT64 := 0x1_0000_0000_0000_0000

  datatype Reply = Reply(requestId: string, body: string)

  datatype Place = Numbered | Waiting | Leaving | Returned

  // The n-th ask of this process. channel is the waiter's; got is what the ask returns.
  datatype Ask = Ask(user: UserId, number: nat, at: Place, channel: Option<Reply>, got: Option<Reply>) {
    function Id(): string { RequestId(number) }
  }

  // A reply on its way to a waiter that was found, from a computer of that account.
  datatype Delivery = Delivery(user: UserId, reply: Reply, to: AskId)

  datatype Hub = Hub(counter: nat, asks: map<AskId, Ask>, pending: map<string, AskId>, deliveries: map<DeliveryId, Delivery>)

  datatype Step =
    | Start(a: AskId, user: UserId)
    | Register(a: AskId)
    | SendFails(a: AskId)
    | Receive(a: AskId)
    | GiveUp(a: AskId)
    | Unregister(a: AskId)
    | Find(d: DeliveryId, user: UserId, reply: Reply)
    | Push(d: DeliveryId)

  // A request id: a 64-bit counter in decimal.
  function RequestId(counter: nat): string {
    Decimal(counter % UINT64)
  }

  function Put(h: Hub, a: AskId, ask: Ask): Hub {
    h.(asks := h.asks[a := ask])
  }

  function AskStep(h: Hub, s: Step, a: AskId): Hub
    requires a in h.asks
  {
    var ask := h.asks[a];
    match s
    case Register(_) => if ask.at.Numbered? then Put(h, a, ask.(at := Waiting)).(pending := h.pending[ask.Id() := a]) else h
    case SendFails(_) => if ask.at.Waiting? then Put(h, a, ask.(at := Leaving)) else h
    case GiveUp(_) => if ask.at.Waiting? then Put(h, a, ask.(at := Leaving)) else h
    case Receive(_) =>
      if ask.at.Waiting? && ask.channel.Some? then Put(h, a, ask.(at := Leaving, channel := None, got := ask.channel)) else h
    case Unregister(_) => if ask.at.Leaving? then Put(h, a, ask.(at := Returned)).(pending := h.pending - {ask.Id()}) else h
    case _ => h
  }

  // The waiter must be this account's; one of another account is left alone.
  function Found(h: Hub, d: DeliveryId, user: UserId, reply: Reply): Hub {
    if d in h.deliveries || reply.requestId == "" || reply.requestId !in h.pending then h
    else
      var a := h.pending[reply.requestId];
      if a in h.asks && h.asks[a].user == user then h.(deliveries := h.deliveries[d := Delivery(user, reply, a)]) else h
  }

  // Dropped if the channel is full.
  function Pushed(h: Hub, d: DeliveryId): Hub
    requires d in h.deliveries
  {
    var to := h.deliveries[d].to;
    var h1 := h.(deliveries := h.deliveries - {d});
    if to in h.asks && h.asks[to].channel.None? then Put(h1, to, h.asks[to].(channel := Some(h.deliveries[d].reply))) else h1
  }

  function Next(h: Hub, s: Step): Hub {
    match s
    case Start(a, user) =>
      if a in h.asks then h
      else Put(h, a, Ask(user, h.counter + 1, Numbered, None, None)).(counter := h.counter + 1)
    case Find(d, user, reply) => Found(h, d, user, reply)
    case Push(d) => if d in h.deliveries then Pushed(h, d) else h
    case _ => if s.a in h.asks then AskStep(h, s, s.a) else h
  }

  // A run from the start, with the state before each step and after the last.
  ghost predicate IsRun(states: seq<Hub>, run: seq<Step>) {
    && |states| == |run| + 1 && states[0] == Hub(0, map[], map[], map[])
    && forall i :: 0 <= i < |run| ==> states[i + 1] == Next(states[i], run[i])
  }

  // ---------------------------------------------------------------------------
  // the invariant
  // ---------------------------------------------------------------------------

  // Every waiter belongs to an ask that has not returned, under its own id.
  predicate WaitersHaveAsks(h: Hub) {
    forall k :: k in h.pending ==> h.pending[k] in h.asks && IsWaiter(h.asks[h.pending[k]], k)
  }

  predicate IsWaiter(ask: Ask, k: string) {
    ask.Id() == k && (ask.at.Waiting? || ask.at.Leaving?)
  }

  predicate Fits(ask: Ask, r: Option<Reply>) {
    r.Some? ==> r.value.requestId == ask.Id()
  }

  // A reply is only ever with the ask it names.
  predicate RepliesFit(h: Hub) {
    && (forall a :: a in h.asks ==> Fits(h.asks[a], h.asks[a].channel) && Fits(h.asks[a], h.asks[a].got))
    && (forall d :: d in h.deliveries ==> IsFor(h, h.deliveries[d]))
  }

  predicate IsFor(h: Hub, d: Delivery) {
    d.to in h.asks && h.asks[d.to].Id() == d.reply.requestId && h.asks[d.to].user == d.user
  }

  // Each ask has a number of its own.
  predicate NumbersDiffer(h: Hub) {
    && (forall a :: a in h.asks ==> 0 < h.asks[a].number <= h.counter)
    && (forall a, b :: a in h.asks && b in h.asks && h.asks[a].number == h.asks[b].number ==> a == b)
  }

  predicate Inv(h: Hub) {
    WaitersHaveAsks(h) && RepliesFit(h) && NumbersDiffer(h)
  }

  // Two numbers make the same id exactly when they differ by a multiple of 2^64.
  lemma SameIdIff(m: nat, n: nat)
    ensures RequestId(m) == RequestId(n) <==> m % UINT64 == n % UINT64
  {
    if RequestId(m) == RequestId(n) {
      DecimalInjective(m % UINT64, n % UINT64);
    }
  }

  lemma StartKeepsInv(h: Hub, a: AskId, user: UserId)
    requires Inv(h) && a !in h.asks
    ensures Inv(Next(h, Start(a, user)))
  {
  }

  // One ask moving on, with its waiter added, kept or removed.
  lemma PutKeepsInv(h: Hub, a: AskId, ask: Ask, pending: map<string, AskId>)
    requires Inv(h) && a in h.asks && ask.number == h.asks[a].number && ask.user == h.asks[a].user
    requires Fits(ask, ask.channel) && Fits(ask, ask.got)
    requires forall k :: k in pending ==> (k in h.pending && pending[k] == h.pending[k]) || (k == ask.Id() && pending[k] == a)
    requires ask.at.Waiting? || ask.at.Leaving? || forall k :: k in pending ==> pending[k] != a
    ensures Inv(Put(h, a, ask).(pending := pending))
  {
  }

  lemma AskStepKeepsInv(h: Hub, s: Step, a: AskId)
    requires Inv(h) && a in h.asks && (s.Register? || s.SendFails? || s.GiveUp? || s.Receive? || s.Unregister?)
    ensures Inv(AskStep(h, s, a))
  {
    var g := AskStep(h, s, a);
    forall k | k in h.pending && h.pending[k] == a
      ensures k == h.asks[a].Id() && !h.asks[a].at.Numbered?
    {
      assert IsWaiter(h.asks[a], k);
    }
    if g != h {
      assert Fits(h.asks[a], h.asks[a].channel) && Fits(h.asks[a], h.asks[a].got);
      PutKeepsInv(h, a, g.asks[a], g.pending);
      assert g == Put(h, a, g.asks[a]).(pending := g.pending);
    }
  }

  lemma FindKeepsInv(h: Hub, d: DeliveryId, user: UserId, reply: Reply)
    requires Inv(h)
    ensures Inv(Found(h, d, user, reply))
  {
  }

  lemma PushKeepsInv(h: Hub, d: DeliveryId)
    requires Inv(h) && d in h.deliveries
    ensures Inv(Pushed(h, d))
  {
  }

  lemma StepKeepsInv(h: Hub, s: Step)
    requires Inv(h)
    ensures Inv(Next(h, s))
  {
    match s
    case Start(a, user) =>
      if a !in h.asks {
        StartKeepsInv(h, a, user);
      }
    case Find(d, user, reply) => FindKeepsInv(h, d, user, reply);
    case Push(d) =>
      if d in h.deliveries {
        PushKeepsInv(h, d);
      }
    case _ =>
      if s.a in h.asks {
        AskStepKeepsInv(h, s, s.a);
      }
  }

  lemma {:induction false} RunKeepsInv(states: seq<Hub>, run: seq<Step>, n: nat)
    requires IsRun(states, run) && n <= |run|
    ensures Inv(states[n])
  {
    if n > 0 {
      RunKeepsInv(states, run, n - 1);
      StepKeepsInv(states[n - 1], run[n - 1]);
    }
  }

  // ---------------------------------------------------------------------------
  // results
  // ---------------------------------------------------------------------------

  // Main result: what an ask returns is a reply to it and, among fewer than 2^64
  // asks, to no other, however late, repeated or foreign the replies.
  lemma ReplyIsItsOwn(states: seq<Hub>, run: seq<Step>, n: nat, a: AskId, b: AskId)
    requires IsRun(states, run) && n <= |run| && a in states[n].asks && states[n].asks[a].got.Some?
    ensures states[n].asks[a].got.value.requestId == states[n].asks[a].Id()
    ensures states[n].counter < UINT64 && b in states[n].asks && b != a ==>
              states[n].asks[a].got.value.requestId != states[n].asks[b].Id()
  {
    RunKeepsInv(states, run, n);
    var g := states[n];
    assert Fits(g.asks[a], g.asks[a].got);
    if g.counter < UINT64 && b in g.asks && b != a {
      SameIdIff(g.asks[a].number, g.asks[b].number);
    }
  }

  // A reply, the account whose computer sent it, and the ask it found waiting.
  datatype Origin = Origin(user: UserId, reply: Reply, ask: AskId)

  predicate FindsAsk(h: Hub, s: Step, o: Origin) {
    s.Find? && s.user == o.user && s.reply == o.reply && o.reply.requestId in h.pending && h.pending[o.reply.requestId] == o.ask
  }

  function NewOrigins(h: Hub, s: Step): set<Origin> {
    if s.Find? && s.reply.requestId in h.pending then {Origin(s.user, s.reply, h.pending[s.reply.requestId])} else {}
  }

  function Origins(states: seq<Hub>, run: seq<Step>, n: nat): set<Origin>
    requires n <= |run| && n <= |states|
  {
    if n == 0 then {} else Origins(states, run, n - 1) + NewOrigins(states[n - 1], run[n - 1])
  }

  lemma {:induction false} OriginIff(states: seq<Hub>, run: seq<Step>, n: nat, o: Origin)
    requires n <= |run| && n <= |states|
    ensures o in Origins(states, run, n) <==> exists i :: 0 <= i < n && FindsAsk(states[i], run[i], o)
  {
    if n > 0 {
      OriginIff(states, run, n - 1, o);
      assert o in NewOrigins(states[n - 1], run[n - 1]) <==> FindsAsk(states[n - 1], run[n - 1], o);
    }
  }

  predicate From(all: set<Origin>, user: UserId, r: Option<Reply>, a: AskId) {
    r.Some? ==> Origin(user, r.value, a) in all
  }

  predicate AllFrom(h: Hub, all: set<Origin>) {
    && (forall a :: a in h.asks ==> From(all, h.asks[a].user, h.asks[a].channel, a) && From(all, h.asks[a].user, h.asks[a].got, a))
    && (forall d :: d in h.deliveries ==> From(all, h.deliveries[d].user, Some(h.deliveries[d].reply), h.deliveries[d].to))
  }

  lemma PushKeepsFrom(h: Hub, d: DeliveryId, all: set<Origin>)
    requires d in h.deliveries && IsFor(h, h.deliveries[d]) && AllFrom(h, all)
    ensures AllFrom(Pushed(h, d), all)
  {
  }

  lemma StepKeepsFrom(h: Hub, s: Step, before: set<Origin>)
    requires Inv(h) && AllFrom(h, before)
    ensures AllFrom(Next(h, s), before + NewOrigins(h, s))
  {
    var all := before + NewOrigins(h, s);
    assert AllFrom(h, all);
    if s.Push? {
      if s.d in h.deliveries {
        assert IsFor(h, h.deliveries[s.d]);
        PushKeepsFrom(h, s.d, all);
      }
    } else {
      OtherStepKeepsFrom(h, s, all);
    }
  }

  lemma OtherStepKeepsFrom(h: Hub, s: Step, all: set<Origin>)
    requires AllFrom(h, all) && !s.Push? && NewOrigins(h, s) <= all
    ensures AllFrom(Next(h, s), all)
  {
  }

  lemma {:induction false} RepliesHaveOrigins(states: seq<Hub>, run: seq<Step>, n: nat)
    requires IsRun(states, run) && n <= |run|
    ensures AllFrom(states[n], Origins(states, run, n))
  {
    if n > 0 {
      RepliesHaveOrigins(states, run, n - 1);
      RunKeepsInv(states, run, n - 1);
      StepKeepsFrom(states[n - 1], run[n - 1], Origins(states, run, n - 1));
    }
  }

  // Main result: what an ask got was sent by a computer of its own account while
  // this very ask was waiting for it.
  lemma ReplyComesFromTheAccount(states: seq<Hub>, run: seq<Step>, n: nat, a: AskId)
    requires IsRun(states, run) && n <= |run| && a in states[n].asks && states[n].asks[a].got.Some?
    ensures
      var ask := states[n].asks[a];
      exists i :: 0 <= i < n && FindsAsk(states[i], run[i], Origin(ask.user, ask.got.value, a))
  {
    RepliesHaveOrigins(states, run, n);
    var ask := states[n].asks[a];
    OriginIff(states, run, n, Origin(ask.user, ask.got.value, a));
  }

  predicate IsOver(h: Hub, a: AskId) {
    a in h.asks && (h.asks[a].at.Leaving? || h.asks[a].at.Returned?)
  }

  lemma StepKeepsResult(h: Hub, s: Step, a: AskId)
    requires IsOver(h, a)
    ensures IsOver(Next(h, s), a) && Next(h, s).asks[a].got == h.asks[a].got
  {
  }

  // Main result: an ask returns once. What it got never changes after it leaves.
  lemma {:induction false} ReturnsOnce(states: seq<Hub>, run: seq<Step>, i: nat, n: nat, a: AskId)
    requires IsRun(states, run) && i <= n <= |run| && IsOver(states[i], a)
    ensures IsOver(states[n], a) && states[n].asks[a].got == states[i].asks[a].got
    decreases n
  {
    if n > i {
      ReturnsOnce(states, run, i, n - 1, a);
      StepKeepsResult(states[n - 1], run[n - 1], a);
    }
  }

  function Rank(p: Place): nat {
    match p
    case Numbered => 0
    case Waiting => 1
    case Leaving => 2
    case Returned => 3
  }

  // An ask takes its places in order, one at a time, and never goes back.
  lemma MovesOneByOne(h: Hub, s: Step, a: AskId)
    requires a in h.asks
    ensures a in Next(h, s).asks
    ensures Rank(h.asks[a].at) <= Rank(Next(h, s).asks[a].at) <= Rank(h.asks[a].at) + 1
    ensures Next(h, s).asks[a].user == h.asks[a].user && Next(h, s).asks[a].number == h.asks[a].number
  {
  }

  lemma NoWaiterOutlivesItsAsk(states: seq<Hub>, run: seq<Step>, n: nat, k: string)
    requires IsRun(states, run) && n <= |run| && k in states[n].pending
    ensures
      var g := states[n];
      g.pending[k] in g.asks && !g.asks[g.pending[k]].at.Returned? && g.asks[g.pending[k]].Id() == k
  {
    RunKeepsInv(states, run, n);
  }

  // A reply in time from the account's computer is what the ask returns; one from
  // another account's changes nothing.
  lemma ReplyReachesItsAsk(h: Hub, a: AskId, d: DeliveryId, sender: UserId, body: string)
    requires a in h.asks && h.asks[a].at.Waiting? && h.asks[a].channel.None? && d !in h.deliveries
    requires h.asks[a].Id() in h.pending && h.pending[h.asks[a].Id()] == a
    ensures
      var r := Reply(h.asks[a].Id(), body);
      if sender == h.asks[a].user then Next(Next(Next(h, Find(d, sender, r)), Push(d)), Receive(a)).asks[a].got == Some(r)
      else Next(h, Find(d, sender, r)) == h
  {
  }

  // ---------------------------------------------------------------------------
  // one ask from beginning to end
  // ---------------------------------------------------------------------------

  lemma SmallIdsDiffer(m: nat, n: nat)
    requires m < n < UINT64
    ensures RequestId(m) != RequestId(n)
  {
    SameIdIff(m, n);
    assert m % UINT64 == m && n % UINT64 == n;
  }

  // A new ask's id is no waiter's, as long as fewer than 2^64 have been asked.
  lemma NewIdIsFree(h: Hub)
    requires Inv(h) && h.counter + 1 < UINT64
    ensures RequestId(h.counter + 1) !in h.pending
  {
    var id := RequestId(h.counter + 1);
    if id in h.pending {
      var ask := h.asks[h.pending[id]];
      assert IsWaiter(ask, id) && ask.number <= h.counter;
      SmallIdsDiffer(ask.number, h.counter + 1);
    }
  }

  // Numbered and registered: it waits under its own id, and nothing else changes.
  lemma AskWaits(h: Hub, a: AskId, user: UserId)
    requires Inv(h) && a !in h.asks && h.counter + 1 < UINT64
    ensures
      var id := RequestId(h.counter + 1);
      && id !in h.pending
      && Next(Next(h, Start(a, user)), Register(a)) ==
         Hub(h.counter + 1, h.asks[a := Ask(user, h.counter + 1, Waiting, None, None)], h.pending[id := a], h.deliveries)
  {
    NewIdIsFree(h);
  }

  // An ask whose message cannot be sent, or that is given up, leaves empty-handed;
  // a reply that comes after it has left finds nobody.
  lemma UnansweredReturnsNothing(h: Hub, a: AskId, user: UserId, sendFails: bool, d: DeliveryId, sender: UserId, body: string)
    requires Inv(h) && a !in h.asks && h.counter + 1 < UINT64
    ensures
      var waiting := Next(Next(h, Start(a, user)), Register(a));
      var over := Next(Next(waiting, if sendFails then SendFails(a) else GiveUp(a)), Unregister(a));
      && over == Hub(h.counter + 1, h.asks[a := Ask(user, h.counter + 1, Returned, None, None)], h.pending, h.deliveries)
      && Next(over, Find(d, sender, Reply(RequestId(h.counter + 1), body))) == over
  {
    AskWaits(h, a, user);
    LeavesEmptyHanded(h, Next(Next(h, Start(a, user)), Register(a)), a, Ask(user, h.counter + 1, Waiting, None, None), sendFails);
  }

  lemma LeavesEmptyHanded(h: Hub, waiting: Hub, a: AskId, ask: Ask, sendFails: bool)
    requires ask.at.Waiting? && ask.Id() !in h.pending
    requires waiting == Hub(ask.number, h.asks[a := ask], h.pending[ask.Id() := a], h.deliveries)
    ensures Next(Next(waiting, if sendFails then SendFails(a) else GiveUp(a)), Unregister(a)) ==
            Hub(ask.number, h.asks[a := ask.(at := Returned)], h.pending, h.deliveries)
  {
    assert h.pending[ask.Id() := a] - {ask.Id()} == h.pending;
  }

  // Until a reply is there, receiving goes on waiting.
  lemma NothingToReceiveYet(h: Hub, a: AskId)
    requires a in h.asks && h.asks[a].channel.None?
    ensures Next(h, Receive(a)) == h
  {
  }

  // Two replies found for a waiting ask: the first put is taken, the second dropped.
  lemma FirstReplyCounts(h: Hub, a: AskId, d: DeliveryId, late: DeliveryId, first: Reply, second: Reply)
    requires a in h.asks && h.asks[a].at.Waiting? && h.asks[a].channel.None?
    requires d in h.deliveries && late in h.deliveries && d != late
    requires h.deliveries[d].to == a && h.deliveries[d].reply == first && h.deliveries[late].to == a && h.deliveries[late].reply == second
    ensures
      var received := Next(Next(Next(h, Push(d)), Push(late)), Receive(a));
      received == Hub(h.counter, h.asks[a := h.asks[a].(at := Leaving, got := Some(first))], h.pending, h.deliveries - {d, late})
  {
    assert h.deliveries - {d} - {late} == h.deliveries - {d, late};
    var pushed := Next(Next(h, Push(d)), Push(late));
    assert pushed == Hub(h.counter, h.asks[a := h.asks[a].(channel := Some(first))], h.pending, h.deliveries - {d, late});
  }

  lemma TwoAreFound(h: Hub, a: AskId, user: UserId, d: DeliveryId, late: DeliveryId, first: Reply, second: Reply)
    requires a in h.asks && h.asks[a].user == user && d !in h.deliveries && late !in h.deliveries && d != late
    requires first.requestId != "" && first.requestId in h.pending && h.pending[first.requestId] == a
    requires second.requestId == first.requestId
    ensures Next(Next(h, Find(d, user, first)), Find(late, user, second)) ==
            h.(deliveries := h.deliveries[d := Delivery(user, first, a)][late := Delivery(user, second, a)])
  {
  }

  lemma WaitingIsAnswered(h: Hub, waiting: Hub, a: AskId, ask: Ask, d: DeliveryId, late: DeliveryId, body: string, again: string)
    requires ask.at.Waiting? && ask.channel.None? && ask.Id() != "" && ask.Id() !in h.pending
    requires waiting == Hub(ask.number, h.asks[a := ask], h.pending[ask.Id() := a], h.deliveries)
    requires d !in h.deliveries && late !in h.deliveries && d != late
    ensures
      var found := Next(Next(waiting, Find(d, ask.user, Reply(ask.Id(), body))), Find(late, ask.user, Reply(ask.Id(), again)));
      var received := Next(Next(Next(found, Push(d)), Push(late)), Receive(a));
      Next(received, Unregister(a)) ==
      Hub(ask.number, h.asks[a := ask.(at := Returned, got := Some(Reply(ask.Id(), body)))], h.pending, h.deliveries)
  {
    var id := ask.Id();
    var one, two := Delivery(ask.user, Reply(id, body), a), Delivery(ask.user, Reply(id, again), a);
    TwoAreFound(waiting, a, ask.user, d, late, one.reply, two.reply);
    FirstReplyCounts(waiting.(deliveries := h.deliveries[d := one][late := two]), a, d, late, one.reply, two.reply);
    assert h.deliveries[d := one][late := two] - {d, late} == h.deliveries;
    assert h.pending[id := a] - {id} == h.pending;
  }

  // Main result: of an ask answered by its account's computer, the reply that was
  // put first is what it returns; a second one on its way is dropped. When it has
  // returned, its waiter is gone and everything else is as it was.
  lemma AnsweredReturnsTheReply(h: Hub, a: AskId, user: UserId, d: DeliveryId, late: DeliveryId, body: string, again: string)
    requires Inv(h) && a !in h.asks && h.counter + 1 < UINT64
    requires d !in h.deliveries && late !in h.deliveries && d != late
    ensures
      var id := RequestId(h.counter + 1);
      var waiting := Next(Next(h, Start(a, user)), Register(a));
      var found := Next(Next(waiting, Find(d, user, Reply(id, body))), Find(late, user, Reply(id, again)));
      var received := Next(Next(Next(found, Push(d)), Push(late)), Receive(a));
      Next(received, Unregister(a)) ==
      Hub(h.counter + 1, h.asks[a := Ask(user, h.counter + 1, Returned, None, Some(Reply(id, body)))], h.pending, h.deliveries)
  {
    AskWaits(h, a, user);
    var ask := Ask(user, h.counter + 1, Waiting, None, None);
    WaitingIsAnswered(h, Next(Next(h, Start(a, user)), Register(a)), a, ask, d, late, body, again);
  }
}
