/** The code of ipc/mailbox.c behind a wait runs with interrupts on. What happens when an interrupt handler calls the
    mailbox between two statements of it? */
module InterruptedMailbox {
  import opened Circular
  import opened Kernel
  import M = Mailbox

  type Mail = M.Mail

  /** The words of a mailbox; the size is |pool|. */
  datatype Box = Box(pool: seq<Mail>, inOffset: nat, outOffset: nat, entry: nat)

  ghost predicate Ok(b: Box)
  {
    && b.entry <= |b.pool| && b.outOffset < |b.pool| && b.inOffset == Wrap(|b.pool|, b.outOffset + b.entry)
  }

  ghost function Q(b: Box): (q: seq<Mail>)
    requires Ok(b)
  {
    Contents(b.pool, b.outOffset, b.entry)
  }

  /** `++offset; if(offset >= size) offset = 0` */
  function Next(n: nat, i: nat): (j: nat)
  {
    if i + 1 >= n then 0 else i + 1
  }

  // ---- the statements ----

  ghost predicate Sane(b: Box)
  {
    b.inOffset < |b.pool| && b.outOffset < |b.pool|
  }

  function StoreMail(b: Box, v: Mail): (b': Box)
    requires b.inOffset < |b.pool|
  {
    b.(pool := b.pool[b.inOffset := v])
  }

  function MoveIn(b: Box): (b': Box)
  {
    b.(inOffset := Next(|b.pool|, b.inOffset))
  }

  /** Fails when the mailbox is full by now. */
  function CountUp(b: Box): (r: (Box, bool))
  {
    if b.entry < |b.pool| then (b.(entry := b.entry + 1), true) else (b, false)
  }

  function MoveOut(b: Box): (b': Box)
  {
    b.(outOffset := Next(|b.pool|, b.outOffset))
  }

  function CountDown(b: Box): (b': Box)
  {
    if b.entry > 0 then b.(entry := b.entry - 1) else b
  }

  /** A call of the handler, which nothing interrupts; what a receive brings, whether a send stores. */
  datatype Call = Receive | Send(u: Mail)

  datatype Result = Nothing | Mailed(mail: Mail) | Sent | Full

  function Handler(b: Box, c: Call): (r: (Box, Result))
    requires Sane(b)
  {
    match c
    case Receive =>
      if b.entry == 0 then (b, Nothing) else (CountDown(MoveOut(b)), Mailed(b.pool[b.outOffset]))
    case Send(u) =>
      if b.entry == |b.pool| then (b, Full) else (CountUp(MoveIn(StoreMail(b, u))).0, Sent)
  }

  /** The rest of sk_mailbox_recv behind its second test, with the handler's call before the read of the mail, before
      out_offset moves, or before entry is counted down. */
  function Received(b: Box, at: nat, c: Call): (r: (Box, Result, Result))
    requires Sane(b)
  {
    if at == 0 then
      var (b1, h) := Handler(b, c);
      (CountDown(MoveOut(b1)), Mailed(b1.pool[b1.outOffset]), h)
    else if at == 1 then
      var (b1, h) := Handler(b, c);
      (CountDown(MoveOut(b1)), Mailed(b.pool[b.outOffset]), h)
    else
      var (b1, h) := Handler(MoveOut(b), c);
      (CountDown(b1), Mailed(b.pool[b.outOffset]), h)
  }

  function Counted(b: Box): (r: (Box, Result))
  {
    (CountUp(b).0, if CountUp(b).1 then Sent else Full)
  }

  /** The rest of sk_mailbox_send_wait behind its second test, with the handler's call before the mail is stored, before
      in_offset moves, or before entry is counted up. */
  function Stored(b: Box, v: Mail, at: nat, c: Call): (r: (Box, Result, Result))
    requires Sane(b)
  {
    if at == 0 then
      var (b1, h) := Handler(b, c);
      var (b2, r) := Counted(MoveIn(StoreMail(b1, v)));
      (b2, r, h)
    else if at == 1 then
      var (b1, h) := Handler(StoreMail(b, v), c);
      var (b2, r) := Counted(MoveIn(b1));
      (b2, r, h)
    else
      var (b1, h) := Handler(MoveIn(StoreMail(b, v)), c);
      var (b2, r) := Counted(b1);
      (b2, r, h)
  }

  // ---- one after the other ----

  /** What a call does to the queue. */
  ghost function Served(q: seq<Mail>, size: nat, c: Call): (r: (seq<Mail>, Result))
  {
    match c
    case Receive => if q == [] then (q, Nothing) else (q[1..], Mailed(q[0]))
    case Send(u) => if |q| == size then (q, Full) else (q + [u], Sent)
  }

  /** The queue, the outcome of the thread's call d and that of the handler's call c are those of one order of the
      two. */
  ghost predicate Serial(q: seq<Mail>, size: nat, d: Call, c: Call, q': seq<Mail>, r: Result, h: Result)
  {
    || (var (q1, r1) := Served(q, size, d); var (q2, h2) := Served(q1, size, c); q' == q2 && r == r1 && h == h2)
    || (var (q1, h1) := Served(q, size, c); var (q2, r2) := Served(q1, size, d); q' == q2 && r == r2 && h == h1)
  }

  ghost predicate AsIfSerial(b: Box, d: Call, c: Call, o: (Box, Result, Result))
    requires Ok(b)
  {
    Ok(o.0) && Serial(Q(b), |b.pool|, d, c, Q(o.0), o.1, o.2)
  }

  // ---- the words and the queue ----

  lemma NextWraps(n: nat, i: nat, k: nat)
    requires i < n && k < n
    ensures Next(n, i) == Wrap(n, i + 1) && Wrap(n, Next(n, i) + k) == Wrap(n, Wrap(n, i + k) + 1)
  {
  }

  /** The oldest mail leaves. */
  lemma TakeFirst(b: Box)
    requires Ok(b) && b.entry > 0
    ensures var b' := CountDown(MoveOut(b));
            Ok(b') && Q(b) == [b.pool[b.outOffset]] + Q(b') && b'.pool == b.pool && b'.inOffset == b.inOffset
  {
    Pop(b.pool, b.outOffset, b.entry);
    NextWraps(|b.pool|, b.outOffset, b.entry - 1);
  }

  /** A mail goes to the end. */
  lemma PutLast(b: Box, u: Mail)
    requires Ok(b) && b.entry < |b.pool|
    ensures var b' := CountUp(MoveIn(StoreMail(b, u))).0;
            Ok(b') && Q(b') == Q(b) + [u] && |b'.pool| == |b.pool| && b'.outOffset == b.outOffset
  {
    Push(b.pool, b.outOffset, b.entry, u);
    NextWraps(|b.pool|, b.outOffset, b.entry);
  }

  /** A call that nothing interrupts does to the words what it does to the queue. */
  lemma HandlerServes(b: Box, c: Call)
    requires Ok(b)
    ensures var (b', h) := Handler(b, c); Ok(b') && (Q(b'), h) == Served(Q(b), |b.pool|, c) && |b'.pool| == |b.pool|
  {
    match c
    case Receive => if b.entry > 0 { TakeFirst(b); }
    case Send(u) => if b.entry < |b.pool| { PutLast(b, u); }
  }

  // ---- an interrupted receive ----

  /** A send of the handler fits in anywhere. */
  lemma ReceivedBesideSend(b: Box, at: nat, u: Mail)
    requires Ok(b) && b.entry > 0
    ensures AsIfSerial(b, Receive, Send(u), Received(b, at, Send(u)))
  {
    HandlerServes(b, Send(u));
    var b1 := Handler(b, Send(u)).0;
    TakeFirst(b);
    TakeFirst(b1);
    assert Q(b1)[0] == Q(b)[0];
    assert Received(b, at, Send(u)) == Received(b, 0, Send(u));
  }

  /** Two receives with two mails or more: the words end right, and who got what depends on the place. */
  lemma ReceivedTwo(b: Box, at: nat)
    requires Ok(b) && b.entry >= 2
    ensures var (b', r, h) := Received(b, at, Receive);
            && Ok(b') && Q(b) == [Q(b)[0], Q(b)[1]] + Q(b')
            && (at == 0 ==> r == Mailed(Q(b)[1]) && h == Mailed(Q(b)[0]))
            && (at == 1 ==> r == h == Mailed(Q(b)[0]))
            && (at >= 2 ==> r == Mailed(Q(b)[0]) && h == Mailed(Q(b)[1]))
  {
    TakeFirst(b);
    TakeFirst(CountDown(MoveOut(b)));
  }

  lemma ReceivedBesideReceive(b: Box, at: nat)
    requires Ok(b) && b.entry > 0
    ensures AsIfSerial(b, Receive, Receive, Received(b, at, Receive)) <==>
            b.entry >= 2 && (at == 1 ==> Q(b)[0] == Q(b)[1])
  {
    if b.entry >= 2 { ReceivedTwo(b, at); }
  }

  /** A receive that a handler's call interrupts behind the wait ends as if the two had come one after the other exactly
      when the handler sends, or when two mails are there and the handler's receive does not fall between the read of
      the mail and the move of out_offset, where it brings the same mail again. */
  lemma InterruptedReceive(b: Box, at: nat, c: Call)
    requires Ok(b) && b.entry > 0
    ensures AsIfSerial(b, Receive, c, Received(b, at, c)) <==>
            c.Send? || (b.entry >= 2 && (at == 1 ==> Q(b)[0] == Q(b)[1]))
  {
    match c
    case Receive => ReceivedBesideReceive(b, at);
    case Send(u) => ReceivedBesideSend(b, at, u);
  }

  // ---- an interrupted send ----

  /** A receive of the handler fits in anywhere. */
  lemma StoredBesideReceive(b: Box, v: Mail, at: nat)
    requires Ok(b) && b.entry < |b.pool|
    ensures AsIfSerial(b, Send(v), Receive, Stored(b, v, at, Receive))
  {
    HandlerServes(b, Receive);
    var b1 := Handler(b, Receive).0;
    PutLast(b1, v);
    if b.entry > 0 {
      TakeFirst(b);
      PutLast(b, v);
      assert Q(b)[0] == (Q(b) + [v])[0];
      TakeFirst(CountUp(MoveIn(StoreMail(b, v))).0);
      assert StoreMail(b, v).pool[b.outOffset] == b.pool[b.outOffset];
    }
    assert Stored(b, v, at, Receive) == Stored(b, v, 0, Receive);
  }

  /** The cell behind the next free one. */
  function Behind(b: Box): (v: Mail)
    requires Sane(b)
  {
    b.pool[Next(|b.pool|, b.inOffset)]
  }

  /** Two sends with room for both. */
  lemma StoredTwo(b: Box, v: Mail, at: nat, u: Mail)
    requires Ok(b) && b.entry + 1 < |b.pool|
    ensures var (b', r, h) := Stored(b, v, at, Send(u));
            && Ok(b') && r == h == Sent
            && Q(b') == Q(b) + if at == 0 then [u, v] else if at == 1 then [u, Behind(b)] else [v, u]
  {
    var x, y := if at >= 2 then v else u, if at == 0 then v else if at == 1 then Behind(b) else u;
    PutLast(b, x);
    var b1 := CountUp(MoveIn(StoreMail(b, x))).0;
    PutLast(b1, y);
    var b2 := CountUp(MoveIn(StoreMail(b1, y))).0;
    if at == 1 {
      assert b1.pool[b1.inOffset] == Behind(b);
      assert b1.pool[b1.inOffset := Behind(b)] == b1.pool;
      assert b.pool[b.inOffset := v][b.inOffset := u] == b.pool[b.inOffset := u];
    }
    assert Stored(b, v, at, Send(u)).0 == b2;
    assert Q(b) + [x] + [y] == Q(b) + [x, y];
  }

  /** Two sends with room for one: the second to count finds the mailbox full, although it stored its mail and moved
      in_offset; only in a mailbox of one cell does in_offset come out right. */
  lemma StoredOne(b: Box, v: Mail, at: nat, u: Mail)
    requires Ok(b) && b.entry + 1 == |b.pool|
    ensures var (b', r, h) := Stored(b, v, at, Send(u));
            && r == Full && h == Sent && (Ok(b') <==> |b.pool| == 1)
            && (|b.pool| == 1 ==> Q(b') == [if at == 0 then v else u])
  {
    NextWraps(|b.pool|, b.outOffset, b.entry);
  }

  lemma SerialSends(q: seq<Mail>, size: nat, v: Mail, u: Mail, x: Mail, y: Mail)
    requires |q| + 1 < size
    ensures Serial(q, size, Send(v), Send(u), q + [x, y], Sent, Sent) <==> (x, y) == (v, u) || (x, y) == (u, v)
  {
    assert q + [v] + [u] == q + [v, u] && q + [u] + [v] == q + [u, v];
    assert (q + [x, y])[|q|] == x && (q + [x, y])[|q| + 1] == y;
    assert (q + [v, u])[|q|] == v && (q + [v, u])[|q| + 1] == u;
    assert (q + [u, v])[|q|] == u && (q + [u, v])[|q| + 1] == v;
  }

  lemma SerialSingle(v: Mail, u: Mail, x: Mail)
    ensures Serial([], 1, Send(v), Send(u), [x], Full, Sent) <==> x == u
  {
    var q: seq<Mail> := [];
    assert q + [u] == [u] && [x][0] == x && [u][0] == u;
  }

  lemma StoredBesideSend(b: Box, v: Mail, at: nat, u: Mail)
    requires Ok(b) && b.entry < |b.pool|
    ensures AsIfSerial(b, Send(v), Send(u), Stored(b, v, at, Send(u))) <==>
            || (b.entry + 1 < |b.pool| && (at == 1 ==> Behind(b) == v))
            || (|b.pool| == 1 && (at == 0 ==> u == v))
  {
    if b.entry + 1 < |b.pool| {
      StoredTwo(b, v, at, u);
      var x, y := if at >= 2 then v else u, if at == 0 then v else if at == 1 then Behind(b) else u;
      SerialSends(Q(b), |b.pool|, v, u, x, y);
    } else {
      StoredOne(b, v, at, u);
      if |b.pool| == 1 { SerialSingle(v, u, if at == 0 then v else u); }
    }
  }

  /** A send that a handler's call interrupts behind the wait ends as if the two had come one after the other exactly
      when the handler receives, or when there is room for both mails and the handler's send does not fall between the
      store and the move of in_offset, where it overwrites the mail; or by chance in a mailbox of one cell. */
  lemma InterruptedSend(b: Box, v: Mail, at: nat, c: Call)
    requires Ok(b) && b.entry < |b.pool|
    ensures AsIfSerial(b, Send(v), c, Stored(b, v, at, c)) <==>
            || c.Receive?
            || (b.entry + 1 < |b.pool| && (at == 1 ==> Behind(b) == v))
            || (|b.pool| == 1 && (at == 0 ==> c.u == v))
  {
    match c
    case Receive => StoredBesideReceive(b, v, at);
    case Send(u) => StoredBesideSend(b, v, at, u);
  }

  // ---- the queue of the model ----

  /** Uninterrupted, the code behind the wait is the one step of the mailbox model. */
  lemma Uninterrupted(b: Box, k: Kernel, cfg: M.Config, v: Mail)
    requires Ok(b) && M.Known(k, cfg) && cfg.size == |b.pool|
    ensures b.entry > 0 ==> var (b', r) := Handler(b, Receive);
              Ok(b') && r.Mailed? && M.RecvRest(k, Q(b), cfg).1 == Q(b')
              && M.RecvRest(k, Q(b), cfg).2 == M.Got(r.mail)
    ensures b.entry < |b.pool| ==> var (b', r) := Handler(b, Send(v));
              Ok(b') && r == Sent && M.SendRest(k, Q(b), cfg, v).1 == Q(b') && M.SendRest(k, Q(b), cfg, v).2 == M.Sent
  {
    HandlerServes(b, Receive);
    HandlerServes(b, Send(v));
  }
}
