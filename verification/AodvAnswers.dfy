/** Without local repair, every reply a requester receives is fresher than what it had
    when it asked. */
module AodvAnswers {
  import opened Freshness
  import opened AodvSpec
  import opened AodvNetwork

  /** `m` is a request as its source sent it, before any relay. */
  predicate Original(m: Msg) {
    m.Rreq? && m.sender == m.src
  }

  predicate SameDiscovery(m: Msg, o: Msg) {
    m.Rreq? && o.Rreq? && m.src == o.src && m.bid == o.bid
  }

  /** `m` still asks for what `o` asked for, or for something newer. */
  predicate AsksAtLeast(m: Msg, o: Msg)
    requires m.Rreq? && o.Rreq?
  {
    m.dst == o.dst && o.dstSeqno <= m.dstSeqno
  }

  /** `m` is the original request `o` or a relayed copy of it. */
  predicate CopyOf(m: Msg, o: Msg) {
    Original(o) && SameDiscovery(m, o) && AsksAtLeast(m, o)
  }

  /** Reply `r` answers request `q` with something live that is not older. */
  predicate Answers(r: Msg, q: Msg) {
    r.Rrep? && q.Rreq? && r.dst == q.dst && r.ipdst == q.src && q.dstSeqno <= r.dstSeqno && LiveSeqno(r.dstSeqno)
  }

  /** The entry for which node `n` sends request `m`: it is down with the number that
      the request carries. */
  predicate AskedFor(n: Node, m: Msg) {
    m.Rreq? && m.dst in n.rt && n.rt[m.dst].flags == Down && n.rt[m.dst].seqno == m.dstSeqno
  }

  ghost predicate HasOriginal(msgs: set<Msg>, m: Msg) {
    exists o :: o in msgs && CopyOf(m, o)
  }

  ghost predicate HasQuestion(msgs: set<Msg>, r: Msg) {
    exists q :: q in msgs && Answers(r, q)
  }

  /** Originals carry dead numbers, and no source uses a broadcast id twice. */
  ghost predicate OriginalsOk(net: Net) {
    && (forall o :: o in net.msgs && Original(o) ==>
          DeadSeqno(o.dstSeqno) && o.src in net.nodes && o.bid < net.nodes[o.src].bid)
    && (forall m, o :: m in net.msgs && o in net.msgs && Original(m) && Original(o) && SameDiscovery(m, o) ==> m == o)
  }

  /** Every request in flight is a copy of an original one, every reply answers a request. */
  ghost predicate AnswersOk(net: Net) {
    && (forall m :: m in net.msgs && m.Rreq? ==> HasOriginal(net.msgs, m))
    && (forall r :: r in net.msgs && r.Rrep? ==> HasQuestion(net.msgs, r))
  }

  ghost predicate RequestsOk(net: Net) {
    OriginalsOk(net) && AnswersOk(net)
  }

  // ----- what a handler does with requests and replies

  predicate NewRequest(n: Node, after: Node, m: Msg) {
    Original(m) && m.src == n.id && n.bid <= m.bid < after.bid && AskedFor(after, m)
  }

  ghost predicate Relays(n: Node, m: Msg, heard: set<Msg>) {
    m.Rreq? && m.sender == n.id && m.src != n.id
    && exists q :: q in heard && SameDiscovery(m, q) && AsksAtLeast(m, q)
  }

  /** `r` is `q` one hop further. */
  predicate Forwards(r: Msg, q: Msg) {
    r.Rrep? && q.Rrep? && r.dst == q.dst && r.ipdst == q.ipdst && r.dstSeqno == q.dstSeqno
  }

  ghost predicate Replies(m: Msg, heard: set<Msg>) {
    m.Rrep? && exists q :: q in heard && (Answers(m, q) || Forwards(m, q))
  }

  ghost predicate SendsWell(n: Node, out: Outcome, heard: set<Msg>) {
    && n.bid <= out.node.bid && out.node.id == n.id
    && (forall k :: 0 <= k < |out.sent| && out.sent[k].Rreq? ==>
          NewRequest(n, out.node, out.sent[k]) || Relays(n, out.sent[k], heard))
    && (forall k :: 0 <= k < |out.sent| && out.sent[k].Rrep? ==> Replies(out.sent[k], heard))
    && (forall k, l :: 0 <= k < l < |out.sent| && Original(out.sent[k]) && Original(out.sent[l])
          ==> out.sent[k].bid != out.sent[l].bid)
  }

  /** Only requests of its own, each with a new broadcast id. */
  ghost predicate SendsOwn(n: Node, out: Outcome) {
    && n.bid <= out.node.bid && out.node.id == n.id
    && (forall k :: 0 <= k < |out.sent| ==> NewRequest(n, out.node, out.sent[k]))
    && (forall k, l :: 0 <= k < l < |out.sent| ==> out.sent[k].bid != out.sent[l].bid)
  }

  /** Entries that are down stay as they are. */
  ghost predicate DownStays(n: Node, n': Node) {
    forall d :: d in n.rt && n.rt[d].flags == Down ==> d in n'.rt && n'.rt[d] == n.rt[d]
  }

  lemma SendsOwnComposes(n: Node, o1: Outcome, o2: Outcome)
    requires SendsOwn(n, o1) && SendsOwn(o1.node, o2) && DownStays(o1.node, o2.node)
    ensures SendsOwn(n, Outcome(o2.node, o1.sent + o2.sent))
  {
    var sent := o1.sent + o2.sent;
    forall k | 0 <= k < |sent| ensures NewRequest(n, o2.node, sent[k]) {
      if k < |o1.sent| {
        assert NewRequest(n, o1.node, o1.sent[k]);
      } else {
        assert NewRequest(o1.node, o2.node, o2.sent[k - |o1.sent|]);
      }
    }
    forall k, l | 0 <= k < l < |sent| ensures sent[k].bid != sent[l].bid {
      if k < |o1.sent| <= l {
        assert NewRequest(n, o1.node, o1.sent[k]);
        assert NewRequest(o1.node, o2.node, o2.sent[l - |o1.sent|]);
      }
    }
  }

  lemma PurgeOneOwn(n: Node, d: Addr, expired: set<Addr>, waiting: set<Addr>)
    requires d in n.rt && n.rt[d].flags != InRepair
    ensures SendsOwn(n, PurgeOne(n, d, expired, waiting))
    ensures DownStays(n, PurgeOne(n, d, expired, waiting).node)
  {
  }

  lemma {:induction false} PurgeOwn(n: Node, ds: seq<Addr>, expired: set<Addr>, waiting: set<Addr>)
    requires Settled(n) && forall d :: d in ds ==> d in n.rt
    ensures SendsOwn(n, PurgeAll(n, ds, expired, waiting))
  {
    if ds != [] {
      var init, d := ds[..|ds| - 1], ds[|ds| - 1];
      PurgeOwn(n, init, expired, waiting);
      PurgeAllSettled(n, init, expired, waiting);
      var o1 := PurgeAll(n, init, expired, waiting);
      assert d in ds && o1.node.rt[d].flags != InRepair;
      PurgeOneOwn(o1.node, d, expired, waiting);
      hide SendsOwn, DownStays, PurgeOne;
      SendsOwnComposes(n, o1, PurgeOne(o1.node, d, expired, waiting));
    }
  }

  lemma OwnIsWell(n: Node, out: Outcome, heard: set<Msg>)
    requires SendsOwn(n, out)
    ensures SendsWell(n, out, heard)
  {
  }

  lemma AnswerOfNode(n: Node, rq: Msg, r: Msg)
    requires NodeOk(n) && MsgOk(rq) && rq.Rreq? && r in RecvRequest(n, rq).sent && r.Rrep?
    ensures Answers(r, rq)
  {
    RecvRequestSound(n, rq);
    var out := RecvRequest(n, rq);
    assert r == out.sent[0];
    assert MsgOk(out.sent[0]);
    hide Sound, ReverseRoute;
  }

  lemma RecvRequestWell(n: Node, m: Msg)
    requires NodeOk(n) && MsgOk(m) && m.Rreq?
    ensures SendsWell(n, RecvRequest(n, m), {m})
  {
    var out := RecvRequest(n, m);
    assert |out.sent| <= 1;
    if |out.sent| == 1 {
      assert m in {m};
      if out.sent[0].Rreq? {
        assert SameDiscovery(out.sent[0], m) && AsksAtLeast(out.sent[0], m);
      } else {
        AnswerOfNode(n, m, out.sent[0]);
      }
    }
    hide NodeOk, ReverseRoute;
  }

  /** A relayed reply still says the same about the same destination, one hop further. */
  lemma ReplyTravelsUnchanged(n: Node, m: Msg, r: Msg)
    requires m.Rrep? && r in RecvReply(n, m).sent
    ensures Forwards(r, m) && r.hops == m.hops + 1 && r.sender == n.id
  {
  }

  lemma RecvReplyWell(n: Node, m: Msg)
    requires m.Rrep?
    ensures SendsWell(n, RecvReply(n, m), {m})
  {
    var out := RecvReply(n, m);
    assert |out.sent| <= 1;
    if |out.sent| == 1 {
      ReplyTravelsUnchanged(n, m, out.sent[0]);
      assert m in {m};
    }
  }

  lemma HandleWell(n: Node, ev: Event)
    requires NodeOk(n) && Settled(n) && Allowed(Off, n, ev) && (ev.Deliver? ==> MsgOk(ev.m))
    ensures SendsWell(n, Handle(n, ev), if ev.Deliver? then {ev.m} else {})
  {
    match ev
    case Deliver(m) =>
      match m {
        case Rreq(_, _, _, _, _, _, _) => RecvRequestWell(n, m);
        case Rrep(_, _, _, _, _, _) => RecvReplyWell(n, m);
        case Rerr(_, _) => ApplyErrorsBid(n, m.sender, m.unreachable);
        case Hello(_, _) =>
      }
    case Expire(expired, waiting) =>
      PurgeOwn(n, n.order, expired, waiting);
      OwnIsWell(n, Handle(n, ev), {});
    case Lost(nb) =>
    case Data(dst, source) =>
    case SayHello =>
    case ForgetIds(_) =>
  }

  lemma {:induction false} ApplyErrorsBid(n: Node, from: Addr, items: seq<(Addr, nat)>)
    ensures ApplyErrors(n, from, items).0.bid == n.bid && ApplyErrors(n, from, items).0.id == n.id
  {
    if items != [] {
      ApplyErrorsBid(n, from, items[..|items| - 1]);
    }
  }

  // ----- what a step adds to the messages in flight

  ghost predicate RequestComesFrom(net: Net, n: Node, after: Node, m: Msg) {
    || NewRequest(n, after, m)
    || (m.Rreq? && m.sender != m.src && exists q :: q in net.msgs && SameDiscovery(m, q) && AsksAtLeast(m, q))
  }

  lemma NewRequestOrigin(net: Net, n: Node, out: Outcome, heard: set<Msg>, m: Msg)
    requires SendsWell(n, out, heard) && heard <= net.msgs && m in out.sent && m.Rreq?
    ensures RequestComesFrom(net, n, out.node, m)
  {
    hide NewRequest, AsksAtLeast;
    var k :| 0 <= k < |out.sent| && out.sent[k] == m;
    if !NewRequest(n, out.node, m) {
      assert Relays(n, out.sent[k], heard);
      var q :| q in heard && SameDiscovery(m, q) && AsksAtLeast(m, q);
      assert q in net.msgs;
    }
  }

  lemma NewReplyOrigin(net: Net, n: Node, out: Outcome, heard: set<Msg>, r: Msg)
    requires SendsWell(n, out, heard) && heard <= net.msgs && r in out.sent && r.Rrep?
    ensures Replies(r, net.msgs)
  {
    hide Answers, Forwards;
    var k :| 0 <= k < |out.sent| && out.sent[k] == r;
    var q :| q in heard && (Answers(r, q) || Forwards(r, q));
    assert q in net.msgs;
  }

  lemma NewOriginalsDiffer(n: Node, out: Outcome, heard: set<Msg>, m: Msg, o: Msg)
    requires SendsWell(n, out, heard) && m in out.sent && o in out.sent
    requires Original(m) && Original(o) && m.bid == o.bid
    ensures m == o
  {
    var k :| 0 <= k < |out.sent| && out.sent[k] == o;
    var l :| 0 <= l < |out.sent| && out.sent[l] == m;
    assert !(k < l) && !(l < k);
  }

  lemma StepOrigins(net: Net, net': Net, i: Addr, ev: Event)
    requires Inv(net) && AllSettled(net) && StepBy(net, net', i, ev) && Allowed(Off, net.nodes[i], ev)
    ensures net.nodes[i].id == i && net.nodes[i].bid <= net'.nodes[i].bid
    ensures forall m :: m in net'.msgs - net.msgs && m.Rreq? ==> RequestComesFrom(net, net.nodes[i], net'.nodes[i], m)
    ensures forall r :: r in net'.msgs - net.msgs && r.Rrep? ==> Replies(r, net.msgs)
    ensures forall m, o :: (m in net'.msgs - net.msgs && o in net'.msgs - net.msgs
        && Original(m) && Original(o) && m.bid == o.bid) ==> m == o
  {
    var n, out := net.nodes[i], Handle(net.nodes[i], ev);
    var heard := if ev.Deliver? then {ev.m} else {};
    HandleWell(n, ev);
    assert net'.nodes[i] == out.node && forall m :: m in net'.msgs - net.msgs ==> m in out.sent;
    assert n.id == i && n.bid <= out.node.bid;
    hide Handle, Inv, StepBy, AllSettled, Allowed, SendsWell, RequestComesFrom, Replies, Original;
    forall m | m in net'.msgs - net.msgs && m.Rreq? ensures RequestComesFrom(net, n, out.node, m) {
      NewRequestOrigin(net, n, out, heard, m);
    }
    forall r | r in net'.msgs - net.msgs && r.Rrep? ensures Replies(r, net.msgs) {
      NewReplyOrigin(net, n, out, heard, r);
    }
    forall m, o | m in net'.msgs - net.msgs && o in net'.msgs - net.msgs
      && Original(m) && Original(o) && m.bid == o.bid
      ensures m == o
    {
      NewOriginalsDiffer(n, out, heard, m, o);
    }
  }

  /** A new original is one of the node that took the step. */
  lemma NewOriginal(net: Net, n: Node, n': Node, o: Msg)
    requires Original(o) && RequestComesFrom(net, n, n', o) && NodeOk(n')
    ensures NewRequest(n, n', o) && DeadSeqno(o.dstSeqno)
  {
    assert EntryOk(n'.rt[o.dst]);
  }

  /** An old and a new original never have the same broadcast id. */
  lemma OldAndNewDiffer(net: Net, n: Node, n': Node, m: Msg, o: Msg)
    requires OriginalsOk(net) && n.id in net.nodes && net.nodes[n.id] == n
    requires m in net.msgs && Original(m) && NewRequest(n, n', o)
    ensures !SameDiscovery(m, o) && !SameDiscovery(o, m)
  {
  }

  lemma StepKeepsOriginals(net: Net, net': Net, i: Addr, ev: Event)
    requires Inv(net) && AllSettled(net) && StepBy(net, net', i, ev) && Allowed(Off, net.nodes[i], ev)
    requires OriginalsOk(net) && Inv(net')
    ensures OriginalsOk(net')
  {
    StepOrigins(net, net', i, ev);
    var n, n' := net.nodes[i], net'.nodes[i];
    assert NodeOk(n') && n'.id == i && net'.nodes == net.nodes[i := n'];
    hide Inv, StepBy, AllSettled, NodeOk, RequestComesFrom, Replies, AskedFor, DeadSeqno, NewRequest;
    forall o | o in net'.msgs - net.msgs && Original(o) ensures NewRequest(n, n', o) && DeadSeqno(o.dstSeqno) {
      NewOriginal(net, n, n', o);
    }
    OriginalsGrow(net, net', i, n');
  }

  /** New originals of node `i` under new ids keep the originals apart. */
  lemma OriginalsGrow(net: Net, net': Net, i: Addr, n': Node)
    requires OriginalsOk(net) && i in net.nodes && net.nodes[i].id == i && net'.nodes == net.nodes[i := n']
    requires n'.id == i && net.nodes[i].bid <= n'.bid
    requires forall o :: o in net'.msgs - net.msgs && Original(o) ==>
      NewRequest(net.nodes[i], n', o) && DeadSeqno(o.dstSeqno)
    requires forall m, o :: (m in net'.msgs - net.msgs && o in net'.msgs - net.msgs
        && Original(m) && Original(o) && m.bid == o.bid) ==> m == o
    ensures OriginalsOk(net')
  {
    hide DeadSeqno, AskedFor;
    var n := net.nodes[i];
    forall o | o in net'.msgs && Original(o)
      ensures DeadSeqno(o.dstSeqno) && o.src in net'.nodes && o.bid < net'.nodes[o.src].bid
    {
      assert o !in net.msgs ==> NewRequest(n, n', o);
    }
    forall m, o | m in net'.msgs && o in net'.msgs && Original(m) && Original(o) && SameDiscovery(m, o) ensures m == o {
      hide NewRequest, Original;
      if m in net.msgs && o !in net.msgs {
        OldAndNewDiffer(net, n, n', m, o);
      } else if m !in net.msgs && o in net.msgs {
        OldAndNewDiffer(net, n, n', o, m);
      }
    }
  }

  lemma CopyOfCopy(m: Msg, q: Msg, o: Msg)
    requires m.Rreq? && q.Rreq? && SameDiscovery(m, q) && AsksAtLeast(m, q) && CopyOf(q, o)
    ensures CopyOf(m, o)
  {
  }

  lemma AnswerForwarded(r: Msg, r0: Msg, q: Msg)
    requires Forwards(r, r0) && Answers(r0, q)
    ensures Answers(r, q)
  {
  }

  lemma HasOriginalWidens(msgs: set<Msg>, more: set<Msg>, m: Msg)
    requires HasOriginal(msgs, m) && msgs <= more
    ensures HasOriginal(more, m)
  {
    hide CopyOf;
    var o :| o in msgs && CopyOf(m, o);
    assert o in more;
  }

  lemma HasQuestionWidens(msgs: set<Msg>, more: set<Msg>, r: Msg)
    requires HasQuestion(msgs, r) && msgs <= more
    ensures HasQuestion(more, r)
  {
    hide Answers;
    var q :| q in msgs && Answers(r, q);
    assert q in more;
  }

  lemma CopyHasOriginal(net: Net, m: Msg, q: Msg)
    requires AnswersOk(net) && q in net.msgs && m.Rreq? && SameDiscovery(m, q) && AsksAtLeast(m, q)
    ensures HasOriginal(net.msgs, m)
  {
    assert HasOriginal(net.msgs, q);
    var o :| o in net.msgs && CopyOf(q, o);
    CopyOfCopy(m, q, o);
  }

  lemma NewHasOriginal(net: Net, msgs: set<Msg>, n: Node, n': Node, m: Msg)
    requires AnswersOk(net) && net.msgs <= msgs && m in msgs && m.Rreq? && RequestComesFrom(net, n, n', m)
    ensures HasOriginal(msgs, m)
  {
    if NewRequest(n, n', m) {
      assert CopyOf(m, m);
    } else {
      var q :| q in net.msgs && SameDiscovery(m, q) && AsksAtLeast(m, q);
      CopyHasOriginal(net, m, q);
      HasOriginalWidens(net.msgs, msgs, m);
    }
  }

  lemma NewHasQuestion(net: Net, r: Msg)
    requires AnswersOk(net) && r.Rrep? && Replies(r, net.msgs)
    ensures HasQuestion(net.msgs, r)
  {
    hide Answers, Forwards;
    var q :| q in net.msgs && (Answers(r, q) || Forwards(r, q));
    if !Answers(r, q) {
      ForwardsAnswer(net, r, q);
    }
  }

  lemma StepKeepsAnswers(net: Net, net': Net, i: Addr, ev: Event)
    requires Inv(net) && AllSettled(net) && StepBy(net, net', i, ev) && Allowed(Off, net.nodes[i], ev)
    requires AnswersOk(net)
    ensures AnswersOk(net')
  {
    StepOrigins(net, net', i, ev);
    var n, n' := net.nodes[i], net'.nodes[i];
    assert net.msgs <= net'.msgs;
    hide Inv, StepBy, AllSettled, HasOriginal, HasQuestion, RequestComesFrom, Replies;
    forall m | m in net'.msgs && m.Rreq? ensures HasOriginal(net'.msgs, m) {
      if m in net.msgs {
        HasOriginalWidens(net.msgs, net'.msgs, m);
      } else {
        NewHasOriginal(net, net'.msgs, n, n', m);
      }
    }
    forall r | r in net'.msgs && r.Rrep? ensures HasQuestion(net'.msgs, r) {
      if r !in net.msgs {
        NewHasQuestion(net, r);
      }
      HasQuestionWidens(net.msgs, net'.msgs, r);
    }
  }

  lemma ForwardsAnswer(net: Net, r: Msg, r0: Msg)
    requires AnswersOk(net) && r0 in net.msgs && Forwards(r, r0)
    ensures HasQuestion(net.msgs, r)
  {
    assert HasQuestion(net.msgs, r0);
    var q :| q in net.msgs && Answers(r0, q);
    AnswerForwarded(r, r0, q);
  }

  lemma {:induction false} RunKeepsRequests(nets: seq<Net>)
    requires Run(nets, Off)
    ensures RequestsOk(nets[|nets| - 1])
  {
    if |nets| > 1 {
      var k := |nets| - 2;
      RunUnfolds(nets, Off);
      RunKeepsRequests(nets[..k + 1]);
      RunKeepsInv(nets[..k + 1], Off);
      OffRunIsSettled(nets[..k + 1]);
      RunKeepsInv(nets, Off);
      var i, ev :| StepBy(nets[k], nets[k + 1], i, ev) && Allowed(Off, nets[k].nodes[i], ev);
      hide Inv, StepBy, Run, AllSettled, OriginalsOk, AnswersOk;
      StepKeepsOriginals(nets[k], nets[k + 1], i, ev);
      StepKeepsAnswers(nets[k], nets[k + 1], i, ev);
    }
  }

  // ----- when a request was asked

  /** In state `k` the original request `o` has just been sent, and the entry of its
      source is down with the number it carries. */
  ghost predicate AskedAt(nets: seq<Net>, k: nat, o: Msg) {
    && 0 < k < |nets| && o.Rreq? && o in nets[k].msgs && o !in nets[k - 1].msgs
    && o.src in nets[k].nodes && AskedFor(nets[k].nodes[o.src], o)
  }

  /** Every original request was asked in some earlier state of the run. */
  lemma {:induction false} OriginalsWereAsked(nets: seq<Net>, o: Msg) returns (k: nat)
    requires Run(nets, Off) && o in nets[|nets| - 1].msgs && Original(o)
    ensures AskedAt(nets, k, o)
  {
    var p := |nets| - 2;
    RunUnfolds(nets, Off);
    if o in nets[p].msgs {
      var init := nets[..p + 1];
      k := OriginalsWereAsked(init, o);
      assert nets[k] == init[k] && nets[k - 1] == init[k - 1];
    } else {
      RunKeepsInv(nets[..p + 1], Off);
      OffRunIsSettled(nets[..p + 1]);
      var i, ev :| StepBy(nets[p], nets[p + 1], i, ev) && Allowed(Off, nets[p].nodes[i], ev);
      hide Inv, Run, AllSettled;
      StepOrigins(nets[p], nets[p + 1], i, ev);
      assert RequestComesFrom(nets[p], nets[p].nodes[i], nets[p + 1].nodes[i], o);
      k := p + 1;
    }
  }

  /** A dead number is never equal to a live one. */
  lemma DeadBelowLive(asked: nat, s: nat)
    requires DeadSeqno(asked) && LiveSeqno(s) && asked <= s
    ensures asked < s
  {
  }

  /** Freshness of answers: for every reply in flight there is the original request it
      answers and an earlier state in which that was asked; there the entry of the
      requester for the destination is down with a number strictly below the reply's. */
  lemma AnswersAreFresher(nets: seq<Net>, r: Msg) returns (o: Msg, k: nat)
    requires Run(nets, Off) && r in nets[|nets| - 1].msgs && r.Rrep?
    ensures AskedAt(nets, k, o) && Original(o) && o.src == r.ipdst && o.dst == r.dst
    ensures nets[k].nodes[r.ipdst].rt[r.dst].seqno < r.dstSeqno && LiveSeqno(r.dstSeqno)
  {
    var net := nets[|nets| - 1];
    RunKeepsRequests(nets);
    assert HasQuestion(net.msgs, r);
    var q :| q in net.msgs && Answers(r, q);
    assert HasOriginal(net.msgs, q);
    o :| o in net.msgs && CopyOf(q, o);
    hide Run;
    k := OriginalsWereAsked(nets, o);
    DeadBelowLive(o.dstSeqno, r.dstSeqno);
  }

  /** On receipt a node either installs the reply or already holds an entry at least as
      good. */
  lemma ReplyIsInstalledOrDominated(n: Node, m: Msg)
    requires m.Rrep?
    ensures var after := RecvReply(n, m).node;
      && (Better(Rank(m.dstSeqno, Fin(m.hops)), RankOf(n, m.dst)) ==>
            m.dst in after.rt && after.rt[m.dst].nexthop == m.sender && RankOf(after, m.dst) == Rank(m.dstSeqno, Fin(m.hops)))
      && (!Better(Rank(m.dstSeqno, Fin(m.hops)), RankOf(n, m.dst)) ==>
            AtLeast(RankOf(n, m.dst), Rank(m.dstSeqno, Fin(m.hops))) && RankOf(after, m.dst) == RankOf(n, m.dst))
  {
  }

  /** When a reply reaches the node that asked, there is an earlier state in which it
      asked; the reply is installed, or the node already holds an entry at least as good;
      and what it holds then is strictly newer than what it held when it asked. */
  lemma AnswersSettleTheQuestion(nets: seq<Net>, next: Net, m: Msg) returns (o: Msg, k: nat)
    requires Run(nets, Off) && m.Rrep? && StepBy(nets[|nets| - 1], next, m.ipdst, Deliver(m))
    ensures AskedAt(nets, k, o) && o.src == m.ipdst && o.dst == m.dst
    ensures var before, after := nets[|nets| - 1].nodes[m.ipdst], next.nodes[m.ipdst];
      && (|| (m.dst in after.rt && after.rt[m.dst].nexthop == m.sender
              && RankOf(after, m.dst) == Rank(m.dstSeqno, Fin(m.hops)))
          || (AtLeast(RankOf(before, m.dst), Rank(m.dstSeqno, Fin(m.hops))) && RankOf(after, m.dst) == RankOf(before, m.dst)))
      && nets[k].nodes[m.ipdst].rt[m.dst].seqno < RankOf(after, m.dst).seqno
  {
    o, k := AnswersAreFresher(nets, m);
    ReplyIsInstalledOrDominated(nets[|nets| - 1].nodes[m.ipdst], m);
    hide Run, RecvReply;
  }
}
