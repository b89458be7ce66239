/**
 The log of a server run and the bytes its client sent decide the record of the run, and with
 it the exit code: no two different records fit the same history.
 */
module ServerLogs {
  import opened Common
  import opened Events
  import opened Packets
  import opened Codec
  import opened Framing
  import opened Ownership
  import opened ServerMain

  /** The log of a start, read event by event: each call shows whether there is another. */
  lemma StartIsRead(c: StartCalls, d: StartCalls, x: seq<Event>, y: seq<Event>)
    requires StartLog(STOPPED, c) + x == StartLog(STOPPED, d) + y
    requires x == [] <==> Start(STOPPED, c).error != Success
    requires y == [] <==> Start(STOPPED, d).error != Success
    ensures Start(STOPPED, c).error == Start(STOPPED, d).error && x == y
    ensures x != [] ==> c.got == d.got
  {
    var l, m := StartLog(STOPPED, c), StartLog(STOPPED, d);
    assert l[0] == (l + x)[0] && m[0] == (m + y)[0];
    assert c.got == d.got;
    if c.got != -1 {
      StagesAreRead(c, d, x, y);
    }
  }

  lemma StagesAreRead(c: StartCalls, d: StartCalls, x: seq<Event>, y: seq<Event>)
    requires c.got == d.got != -1
    requires StartLog(STOPPED, c) + x == StartLog(STOPPED, d) + y
    requires x == [] <==> c.Error() != Success
    requires y == [] <==> d.Error() != Success
    ensures c.Error() == d.Error() && x == y
  {
    var l, m := StartLog(STOPPED, c), StartLog(STOPPED, d);
    var log := l + x;
    assert l == [SocketCall(c.got)] + StagesLog(c) && m == [SocketCall(d.got)] + StagesLog(d);
    assert forall i | 0 <= i < |l| && i < |m| :: l[i] == log[i] == m[i];
    assert x == log[|l|..] && y == log[|m|..];
  }

  lemma ReceivesShow(before: seq<Event>, heard: seq<Event>, log: seq<Event>, fd: int, error: ErrorCode)
    requires Recvs(before, heard, fd, error) && heard <= log
    ensures |before| <= |heard| && forall i | |before| <= i < |heard| :: log[i].RecvCall?
  {
    assert forall i | 0 <= i < |heard| :: log[i] == heard[i];
  }

  /** The receives end where the first look follows. */
  lemma HeardIsRead(before: seq<Event>, heard: seq<Event>, other: seq<Event>, log: seq<Event>, fd: int,
                    e: ErrorCode, f: ErrorCode)
    requires Recvs(before, heard, fd, e) && heard < log && log[|heard|].Look?
    requires Recvs(before, other, fd, f) && other < log && log[|other|].Look?
    ensures heard == other
  {
    ReceivesShow(before, heard, log, fd, e);
    ReceivesShow(before, other, log, fd, f);
    assert heard == log[..|heard|] && other == log[..|other|];
  }

  /** A receive's result and the bytes decide its error code. */
  lemma ReceiveIsRead(before: seq<Event>, heard: seq<Event>, fd: int, r: Talk, s: Talk,
                      stream: seq<bv8>, rest: seq<bv8>)
    requires Recvs(before, heard, fd, r.receive) && Recvs(before, heard, fd, s.receive)
    requires Heard(r, stream, rest) && Heard(s, stream, rest)
    ensures r.receive == s.receive
  {
  }

  predicate ReplyLogged(said: seq<Event>, error: ErrorCode, seen: bool, log: seq<Event>) {
    log == said + if error == Success then [Look(seen)] else []
  }

  lemma ReplyEnds(before: seq<Event>, said: seq<Event>, log: seq<Event>, fd: int, error: ErrorCode, seen: bool)
    requires Sends(before, said, fd, error) && ReplyLogged(said, error, seen, log)
    ensures log != [] && if error == Success then log[|log| - 1] == Look(seen) else log[|log| - 1].SendCall?
    ensures error in {Success, SocketError}
  {
  }

  /** A reply was sent exactly when a look follows the sends. */
  lemma ReplyIsRead(before: seq<Event>, said: seq<Event>, other: seq<Event>, log: seq<Event>, fd: int,
                    e: ErrorCode, seen: bool, f: ErrorCode, saw: bool)
    requires Sends(before, said, fd, e) && ReplyLogged(said, e, seen, log)
    requires Sends(before, other, fd, f) && ReplyLogged(other, f, saw, log)
    ensures e == f && (e == Success ==> seen == saw)
  {
    ReplyEnds(before, said, log, fd, e, seen);
    ReplyEnds(before, other, log, fd, f, saw);
  }

  lemma TalkIsRead(r: Talk, s: Talk, fd: int, before: seq<Event>, m: Marks, n: Marks, log: seq<Event>,
                   stream: seq<bv8>, rest: seq<bv8>)
    requires TalkInOrder(r) && TalkDid(r, fd, before, m.heard, m.said, log) && Heard(r, stream, rest)
    requires TalkInOrder(s) && TalkDid(s, fd, before, n.heard, n.said, log) && Heard(s, stream, rest)
    ensures r == s
  {
    LooksFollow(r, fd, m, log);
    LooksFollow(s, fd, n, log);
    HeardIsRead(before, m.heard, n.heard, log, fd, r.receive, s.receive);
    ReceiveIsRead(before, m.heard, fd, r, s, stream, rest);
    if r.send.Some? && s.send.Some? {
      var looked := AfterHearing(r, m.heard);
      ReplyIsRead(looked, m.said, n.said, log, fd, r.send.value, r.afterSend, s.send.value, s.afterSend);
    }
  }

  /** The log goes on after the last receive with the looks of the record. */
  lemma LooksFollow(talk: Talk, fd: int, marks: Marks, log: seq<Event>)
    requires Replied(talk, fd, AfterHearing(talk, marks.heard), marks.said, log)
    ensures AfterHearing(talk, marks.heard) <= log
    ensures marks.heard < log && log[|marks.heard|] == Look(talk.afterReceive)
    ensures talk.receive == Success && !talk.afterReceive ==>
              |marks.heard| + 1 < |log| && log[|marks.heard| + 1] == Look(talk.afterDispatch)
  {
    var looked := AfterHearing(talk, marks.heard);
    assert looked <= log;
    assert looked[|marks.heard|] == Look(talk.afterReceive);
  }

  lemma ScopeFollows(run: Run, started: seq<Event>, marks: Marks, log: seq<Event>)
    requires ScopeDid(run, started, marks, log)
    ensures started < log && log[|started|] == Look(run.beforeAccept)
    ensures run.accept.None? ==> |log| == |started| + 1
    ensures run.accept.Some? ==>
              && AfterAccept(run, started, marks) <= log
              && |log| >= |started| + 3 && log[|started| + 1] == AcceptCall(marks.calls.got, marks.client)
              && log[|started| + 2] == Look(run.afterAccept)
    ensures run.accept.Some? && run.talk.None? ==> |log| == |started| + 3
  {
    if run.accept.Some? {
      var accepted := AfterAccept(run, started, marks);
      if run.talk.Some? {
        LooksFollow(run.talk.value, marks.client, marks, log);
        assert accepted <= marks.heard <= log;
      }
      assert accepted[|started|] == Look(run.beforeAccept);
      assert accepted[|started| + 1] == AcceptCall(marks.calls.got, marks.client);
      assert accepted[|started| + 2] == Look(run.afterAccept);
    }
  }

  lemma ScopeIsRead(r: Run, s: Run, started: seq<Event>, m: Marks, n: Marks, log: seq<Event>,
                    stream: seq<bv8>, rest: seq<bv8>)
    requires r.start == s.start == Success && m.calls.got == n.calls.got
    requires InOrder(r) && ScopeDid(r, started, m, log) && (r.talk.Some? ==> Heard(r.talk.value, stream, rest))
    requires InOrder(s) && ScopeDid(s, started, n, log) && (s.talk.Some? ==> Heard(s.talk.value, stream, rest))
    ensures r == s && m.client == n.client
  {
    ScopeFollows(r, started, m, log);
    ScopeFollows(s, started, n, log);
    if r.accept.Some? {
      assert AfterAccept(r, started, m) == AfterAccept(s, started, n);
    }
    if r.talk.Some? && s.talk.Some? {
      TalkIsRead(r.talk.value, s.talk.value, m.client, AfterAccept(r, started, m), m, n, log, stream, rest);
    }
  }

  /** A look that saw the shutdown is the last thing the server logs, so at most one does. */
  lemma ShutdownEndsTheLog(run: Run, before: seq<Event>, marks: Marks, log: seq<Event>)
    requires InOrder(run) && RunDid(run, before, marks, log)
    ensures before < log
    ensures forall i | |before| <= i < |log| - 1 :: log[i] != Look(true)
    ensures SawShutdown(run) <==> log[|log| - 1] == Look(true)
  {
    StartLooksAtNothing(marks.calls);
    var started := AfterStart(before, marks);
    if run.start == Success {
      ScopeFollows(run, started, marks, log);
      if run.talk.Some? {
        TalkShutdown(run.talk.value, AfterAccept(run, started, marks), marks, log);
      }
    }
  }

  lemma StartLooksAtNothing(calls: StartCalls)
    ensures StartLog(STOPPED, calls) != [] && forall e | e in StartLog(STOPPED, calls) :: !e.Look?
  {
  }

  lemma TalkShutdown(talk: Talk, before: seq<Event>, marks: Marks, log: seq<Event>)
    requires TalkInOrder(talk) && TalkDid(talk, marks.client, before, marks.heard, marks.said, log)
    ensures before < log
    ensures forall i | |before| <= i < |log| - 1 :: log[i] != Look(true)
    ensures TalkSaw(talk) <==> log[|log| - 1] == Look(true)
  {
    LooksFollow(talk, marks.client, marks, log);
    ReceivesShow(before, marks.heard, log, marks.client, talk.receive);
  }

  /** The log from a successful start to the look after accept. */
  lemma OpeningShows(run: Run, before: seq<Event>, marks: Marks)
    requires Start(STOPPED, marks.calls).error == Success && !run.beforeAccept && !run.afterAccept
    ensures AfterAccept(run, AfterStart(before, marks), marks) ==
            var fd := marks.calls.got;
            before + [SocketCall(fd), SetupCall(SetSockOpt, true), SetupCall(InetPton, true),
                      SetupCall(Bind, true), SetupCall(Listen, true), NameCall(true, marks.calls.port),
                      Look(false), AcceptCall(fd, marks.client), Look(false)]
  {
    FirstStartShows(marks.calls);
  }

  /** The log from there to the look after the reply. */
  lemma AnsweredTalkShows(talk: Talk, before: seq<Event>, marks: Marks, log: seq<Event>)
    requires TalkInOrder(talk) && TalkDid(talk, marks.client, before, marks.heard, marks.said, log)
    requires talk.send == Some(Success)
    ensures var looked := marks.heard + if talk.receive == Success then [Look(false), Look(false)] else [Look(false)];
            && before <= marks.heard && looked <= marks.said && log == marks.said + [Look(talk.afterSend)]
            && (forall i | |before| <= i < |marks.heard| ::
                  marks.heard[i].RecvCall? && marks.heard[i].fd == marks.client && marks.heard[i].result > 0)
            && (forall i | |looked| <= i < |marks.said| ::
                  marks.said[i].SendCall? && marks.said[i].fd == marks.client && marks.said[i].result > 0)
  {
    assert AfterHearing(talk, marks.heard) ==
           marks.heard + if talk.receive == Success then [Look(false), Look(false)] else [Look(false)];
  }

  /**
   The whole log of a run that sent its reply, call by call: the socket, its setup, a look, one
   accept on that socket, a look, receives from that client, one look for a refused frame and
   two for a request, sends to that client, and a last look.
   */
  lemma AnsweredRunShows(run: Run, before: seq<Event>, marks: Marks, log: seq<Event>)
    requires InOrder(run) && RunDid(run, before, marks, log)
    requires run.talk.Some? && run.talk.value.send == Some(Success)
    ensures var talk, fd, client := run.talk.value, marks.calls.got, marks.client;
            var begun := before + [SocketCall(fd), SetupCall(SetSockOpt, true), SetupCall(InetPton, true),
                                   SetupCall(Bind, true), SetupCall(Listen, true), NameCall(true, marks.calls.port),
                                   Look(false), AcceptCall(fd, client), Look(false)];
            var looked := marks.heard + if talk.receive == Success then [Look(false), Look(false)] else [Look(false)];
            && begun <= marks.heard && looked <= marks.said && log == marks.said + [Look(talk.afterSend)]
            && (forall i | |begun| <= i < |marks.heard| ::
                  marks.heard[i].RecvCall? && marks.heard[i].fd == client && marks.heard[i].result > 0)
            && (forall i | |looked| <= i < |marks.said| ::
                  marks.said[i].SendCall? && marks.said[i].fd == client && marks.said[i].result > 0)
  {
    hide AfterAccept, AfterStart, TalkDid, Start, StartLog;
    OpeningShows(run, before, marks);
    AnsweredTalkShows(run.talk.value, AfterAccept(run, AfterStart(before, marks), marks), marks, log);
  }

  lemma StartComesFirst(run: Run, before: seq<Event>, marks: Marks, log: seq<Event>)
    requires RunDid(run, before, marks, log)
    ensures AfterStart(before, marks) <= log
    ensures log[|before|..] == StartLog(STOPPED, marks.calls) + log[|AfterStart(before, marks)|..]
    ensures log[|AfterStart(before, marks)|..] == [] <==> run.start != Success
  {
    hide StartLog;
    var started := AfterStart(before, marks);
    if run.start == Success {
      ScopeFollows(run, started, marks, log);
    }
    assert log == before + (StartLog(STOPPED, marks.calls) + log[|started|..]);
  }

  /**
   Two records of the same log, over the same bytes from the client and with the same bytes
   left unread, are the same record.
   */
  lemma LogDecidesRun(r: Run, s: Run, before: seq<Event>, m: Marks, n: Marks, log: seq<Event>,
                      stream: seq<bv8>, rest: seq<bv8>)
    requires InOrder(r) && RunDid(r, before, m, log) && (r.talk.Some? ==> Heard(r.talk.value, stream, rest))
    requires InOrder(s) && RunDid(s, before, n, log) && (s.talk.Some? ==> Heard(s.talk.value, stream, rest))
    ensures r == s && ExitCode(r) == ExitCode(s)
    ensures m.client == n.client
  {
    hide StartLog, ScopeDid, Start, Heard;
    StartComesFirst(r, before, m, log);
    StartComesFirst(s, before, n, log);
    var l, k := AfterStart(before, m), AfterStart(before, n);
    StartIsRead(m.calls, n.calls, log[|l|..], log[|k|..]);
    if r.start == Success {
      assert l == log[..|l|] && k == log[..|k|];
      ScopeIsRead(r, s, l, m, n, log, stream, rest);
    }
  }
}
