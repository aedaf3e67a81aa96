/**
The mailbox-first token relay of bin/poll-smoke.py: a circuit breaker over a run. Once the
mailbox has been polled in vain it is switched off for good, with one warning.
The mailbox and the clock are the environment: any answer, any delay.
*/
module MailRelay {
  import opened Wrappers
  import opened Sorting

  datatype Message = Message(sentAt: int, body: string)

  /** One request to the mailbox. */
  datatype Answer = Messages(messages: seq<Message>) | ScopeError | HttpError

  type Token = t: string | t != "" witness "t"

  /** `find_poll_link` (body, poll id) and `extract_poll_token`, whose `None` is a `ValueError`. */
  datatype Links = Links(find: (string, string) -> Option<string>, extract: string -> Option<Token>)

  // ----- The newest live link

  predicate NewerFirst(a: Message, b: Message) {
    a.sentAt >= b.sentAt
  }

  function LinkIn(links: Links, poll: string, m: Message): Option<string> {
    if links.find(m.body, poll) == Some("") then None else links.find(m.body, poll)
  }

  /** Sent at or after the watermark, and carrying a link for the poll. */
  function Qualifies(links: Links, poll: string, notBefore: int): Message -> bool {
    (m: Message) => m.sentAt >= notBefore && LinkIn(links, poll, m).Some?
  }

  /** `link` is that of the newest qualifying message, the earliest in the list among equally new ones. */
  ghost predicate IsNewestLink(links: Links, messages: seq<Message>, poll: string, notBefore: int,
                               link: Option<string>) {
    var live := Filter(Qualifies(links, poll, notBefore), messages);
    match link
    case None => live == []
    case Some(l) =>
      exists i :: 0 <= i < |live| && LinkIn(links, poll, live[i]) == Some(l)
        && (forall j | 0 <= j < |live| :: live[j].sentAt <= live[i].sentAt)
        && (forall j | 0 <= j < i :: live[j].sentAt < live[i].sentAt)
  }

  /** A message that a token may come from, and its link. */
  predicate Offers(links: Links, poll: string, notBefore: int, m: Message, link: string) {
    notBefore <= m.sentAt && links.find(m.body, poll) == Some(link) && link != ""
  }

  /** The link is one that a message offers, and no later message offers any; there is none if no message does. */
  lemma NewestLinkIs(links: Links, messages: seq<Message>, poll: string, notBefore: int, link: Option<string>)
    requires IsNewestLink(links, messages, poll, notBefore, link)
    ensures match link
            case None => forall m, l | m in messages :: !Offers(links, poll, notBefore, m, l)
            case Some(l) =>
              exists m :: m in messages && Offers(links, poll, notBefore, m, l)
                && forall n, k | n in messages && Offers(links, poll, notBefore, n, k) :: n.sentAt <= m.sentAt
  {
    var p := Qualifies(links, poll, notBefore);
    var live := Filter(p, messages);
    FilterElements(p, messages);
    if link.Some? {
      var i :| 0 <= i < |live| && LinkIn(links, poll, live[i]) == link
        && (forall j | 0 <= j < |live| :: live[j].sentAt <= live[i].sentAt);
      assert live[i] in live && Offers(links, poll, notBefore, live[i], link.value);
      forall n, k | n in messages && Offers(links, poll, notBefore, n, k) ensures n.sentAt <= live[i].sentAt {
        assert n in live;
      }
    } else {
      forall m, l | m in messages ensures !Offers(links, poll, notBefore, m, l) {
        assert m !in live;
      }
    }
  }

  lemma NewestLinkUnique(links: Links, messages: seq<Message>, poll: string, notBefore: int,
                         a: Option<string>, b: Option<string>)
    requires IsNewestLink(links, messages, poll, notBefore, a) && IsNewestLink(links, messages, poll, notBefore, b)
    ensures a == b
  {
    var live := Filter(Qualifies(links, poll, notBefore), messages);
    if a.Some? && b.Some? {
      var i :| 0 <= i < |live| && LinkIn(links, poll, live[i]) == a
        && (forall j | 0 <= j < |live| :: live[j].sentAt <= live[i].sentAt)
        && (forall j | 0 <= j < i :: live[j].sentAt < live[i].sentAt);
      var k :| 0 <= k < |live| && LinkIn(links, poll, live[k]) == b
        && (forall j | 0 <= j < |live| :: live[j].sentAt <= live[k].sentAt)
        && (forall j | 0 <= j < k :: live[j].sentAt < live[k].sentAt);
      assert live[i].sentAt == live[k].sentAt;
      assert i == k;
    }
  }

  lemma FirstLiveIsNewest(links: Links, messages: seq<Message>, poll: string, notBefore: int, i: nat)
    requires var ordered := Sort(NewerFirst, messages);
      && i < |ordered| && Qualifies(links, poll, notBefore)(ordered[i])
      && forall j | 0 <= j < i :: !Qualifies(links, poll, notBefore)(ordered[j])
    ensures IsNewestLink(links, messages, poll, notBefore, LinkIn(links, poll, Sort(NewerFirst, messages)[i]))
  {
    var p, ordered := Qualifies(links, poll, notBefore), Sort(NewerFirst, messages);
    var live := Filter(p, messages);
    FilterSort(p, NewerFirst, messages);
    FirstKept(p, ordered, i);
    assert Sort(NewerFirst, live)[0] == ordered[i];
    SortPermutes(NewerFirst, live);
    var k := SortHead(NewerFirst, live);
    assert live[k] == ordered[i];
  }

  lemma {:induction false} FirstKept<T>(p: T -> bool, xs: seq<T>, i: nat)
    requires i < |xs| && p(xs[i]) && forall j | 0 <= j < i :: !p(xs[j])
    ensures Filter(p, xs) != [] && Filter(p, xs)[0] == xs[i]
  {
    if i > 0 {
      FirstKept(p, xs[1..], i - 1);
    }
  }

  lemma {:induction false} NoneKept<T>(p: T -> bool, xs: seq<T>)
    requires forall j | 0 <= j < |xs| :: !p(xs[j])
    ensures Filter(p, xs) == []
  {
    if xs != [] {
      NoneKept(p, xs[1..]);
    }
  }

  method NewestMatchingLink(links: Links, messages: seq<Message>, poll: string, notBefore: int)
    returns (link: Option<string>)
    ensures IsNewestLink(links, messages, poll, notBefore, link)
  {
    var ordered := Sort(NewerFirst, messages);
    ghost var p := Qualifies(links, poll, notBefore);
    for i := 0 to |ordered|
      invariant forall j | 0 <= j < i :: !p(ordered[j])
    {
      if ordered[i].sentAt < notBefore {
        continue;
      }
      link := links.find(ordered[i].body, poll);
      if link.Some? && link.value != "" {
        FirstLiveIsNewest(links, messages, poll, notBefore, i);
        return link;
      }
    }
    NoneKept(p, ordered);
    FilterSort(p, NewerFirst, messages);
    SortPermutes(NewerFirst, Filter(p, messages));
    return None;
  }

  // ----- The breaker

  const POLL_TIMEOUT: int := 90_000   // milliseconds
  const POLL_INTERVAL: int := 5_000

  lemma OneMoreRequest(links: Links, q: Quest, asked: seq<Asked>, a: Asked)
    requires Polling(links, q, asked) && a.invitee == q.invitee && a.notBefore == q.notBefore
    requires asked != [] ==> Retried(links, q, asked[|asked| - 1]) && asked[|asked| - 1].at + POLL_INTERVAL <= a.at
    ensures Polling(links, q, asked + [a])
  {
  }

  datatype Request = Request(
    preset: Option<string>, poll: string, invitee: string, notBefore: Option<int>, tty: bool, typed: string)

  datatype Outcome = FromEnv(token: Token) | FromMailbox(token: Token) | FromPrompt(token: Token) | BadToken | Exit

  /** One request that was made: to whom and since when the mail was to be, what came back, and when. */
  datatype Asked = Asked(invitee: string, notBefore: int, answer: Answer, at: int)

  /** What one call is looking for, and until when. */
  datatype Quest = Quest(poll: string, invitee: string, notBefore: int, deadline: int)

  /** The answer holds a message sent at or after the watermark that carries a link for the poll. */
  predicate Holds(links: Links, q: Quest, a: Answer) {
    a.Messages? && exists m :: m in a.messages && Qualifies(links, q.poll, q.notBefore)(m)
  }

  /** Nothing was found, and there is cause and time to ask again. */
  predicate Retried(links: Links, q: Quest, a: Asked) {
    !a.answer.ScopeError? && !Holds(links, q, a.answer) && a.at < q.deadline
  }

  /** Requests for the quest, each but the last followed by another one interval later or more. */
  ghost predicate Polling(links: Links, q: Quest, asked: seq<Asked>) {
    && (forall i | 0 <= i < |asked| :: asked[i].invitee == q.invitee && asked[i].notBefore == q.notBefore)
    && (forall i | 0 <= i < |asked| - 1 ::
          Retried(links, q, asked[i]) && asked[i].at + POLL_INTERVAL <= asked[i + 1].at)
  }

  /** The polling ended with the newest link of the last answer, or in vain: no permission, or out of time. */
  ghost predicate EndsWith(links: Links, q: Quest, asked: seq<Asked>, link: Option<string>) {
    asked != [] && Polling(links, q, asked) &&
    var last := asked[|asked| - 1];
    match link
    case Some(l) => last.answer.Messages? && IsNewestLink(links, last.answer.messages, q.poll, q.notBefore, link)
    case None => !Holds(links, q, last.answer) && (last.answer.ScopeError? || last.at >= q.deadline)
  }

  lemma HoldsIff(links: Links, q: Quest, messages: seq<Message>, link: Option<string>)
    requires IsNewestLink(links, messages, q.poll, q.notBefore, link)
    ensures Holds(links, q, Messages(messages)) <==> link.Some?
  {
    var p := Qualifies(links, q.poll, q.notBefore);
    FilterElements(p, messages);
    var live := Filter(p, messages);
    if link.Some? {
      assert live != [];
      assert live[0] in live;
    }
  }

  class Relay {
    const links: Links
    const startEpoch: int
    var readerOn: bool           // `_mail_reader` is not None
    var warned: bool             // `_mail_reader_warned`
    var clock: int
    var stderr: nat              // warnings printed since the reader was configured
    ghost var fruitless: nat     // calls that polled the mailbox and came back empty
    ghost var requests: seq<Asked>

    /** At most one fruitless poll, at most one warning, and then the reader is off. */
    ghost predicate Valid()
      reads this
    {
      && fruitless == stderr == (if warned then 1 else 0)
      && (readerOn ==> !warned)
    }

    /** The module's initial state: no reader. */
    constructor (links: Links, startEpoch: int)
      ensures Valid() && !readerOn && fruitless == 0 && stderr == 0
      ensures this.links == links && this.startEpoch == startEpoch
    {
      this.links, this.startEpoch := links, startEpoch;
      readerOn, warned, clock, stderr, fruitless, requests := false, false, 0, 0, 0, [];
    }

    /** Starts a run: the only way to switch a reader on. The counts are of this run. */
    method ConfigureMailReader(reader: bool)
      modifies this`readerOn, this`warned, this`stderr, this`fruitless
      ensures Valid() && readerOn == reader && fruitless == 0 && stderr == 0
    {
      readerOn, warned := reader, false;
      stderr, fruitless := 0, 0;
    }

    /** The mailbox answers as it likes, in its own time. */
    method Ask(invitee: string, notBefore: int) returns (answer: Answer)
      modifies this`clock, this`requests
      ensures clock >= old(clock) && requests == old(requests) + [Asked(invitee, notBefore, answer, clock)]
    {
      answer := *;
      var delay: nat :| true;
      clock := clock + delay;
      requests := requests + [Asked(invitee, notBefore, answer, clock)];
    }

    method Sleep(ms: int)
      requires ms > 0
      modifies this`clock
      ensures clock >= old(clock) + ms
    {
      var late: nat :| true;
      clock := clock + ms + late;
    }

    method DisableMailReader()
      modifies this`readerOn, this`warned, this`stderr
      ensures !readerOn && warned && stderr == old(stderr) + if old(warned) then 0 else 1
    {
      if !warned {
        stderr := stderr + 1;
        warned := true;
      }
      readerOn := false;
    }

    ghost function QuestOf(poll: string, invitee: string, notBefore: int): Quest
      reads this`clock
    {
      Quest(poll, invitee, notBefore, clock + POLL_TIMEOUT)
    }

    /**
    With a reader, the mailbox is asked until a link shows up or there is cause to give up; only
    then is the reader switched off. `error` is a `ValueError` out of `extract_poll_token`.
    */
    method MailboxToken(poll: string, invitee: string, notBefore: int)
      returns (token: Option<Token>, error: bool, ghost asked: seq<Asked>, ghost link: Option<string>)
      requires Valid()
      modifies this
      ensures Valid() && requests == old(requests) + asked
      ensures !old(readerOn) ==> asked == [] && link.None? && !readerOn && fruitless == old(fruitless)
      ensures old(readerOn) ==> EndsWith(links, old(QuestOf(poll, invitee, notBefore)), asked, link)
      ensures old(readerOn) ==> readerOn == link.Some? && fruitless == old(fruitless) + if link.None? then 1 else 0
      ensures token == (if link.None? then None else links.extract(link.value)) && error == (link.Some? && token.None?)
      ensures !old(readerOn) || readerOn ==> stderr == old(stderr)
      ensures asked != [] ==> asked[0].at >= old(clock)
    {
      asked, link := [], None;
      if !readerOn {
        return None, false, asked, link;
      }
      ghost var q := QuestOf(poll, invitee, notBefore);
      var deadline := clock + POLL_TIMEOUT;
      while true
        invariant Valid() && readerOn && fruitless == old(fruitless) && stderr == old(stderr) && link.None?
        invariant requests == old(requests) + asked && Polling(links, q, asked) && clock >= old(clock)
        invariant asked != [] ==>
          && Retried(links, q, asked[|asked| - 1]) && asked[|asked| - 1].at + POLL_INTERVAL <= clock
          && asked[0].at >= old(clock)
        decreases deadline - clock
      {
        var answer := Ask(invitee, notBefore);
        ghost var before := asked;
        asked := asked + [Asked(invitee, notBefore, answer, clock)];
        OneMoreRequest(links, q, before, asked[|before|]);
        match answer {
          case ScopeError =>
            DisableMailReader();
            fruitless := fruitless + 1;
            return None, false, asked, None;
          case HttpError =>
            if clock >= deadline {
              DisableMailReader();
              fruitless := fruitless + 1;
              return None, false, asked, None;
            }
            Sleep(POLL_INTERVAL);
          case Messages(messages) =>
            var newest := NewestMatchingLink(links, messages, poll, notBefore);
            HoldsIff(links, q, messages, newest);
            if newest.Some? {
              var extracted := links.extract(newest.value);
              return extracted, extracted.None?, asked, newest;
            }
            if clock >= deadline {
              DisableMailReader();
              fruitless := fruitless + 1;
              return None, false, asked, None;
            }
            Sleep(POLL_INTERVAL);
        }
      }
    }

    /** A call without a watermark of its own uses the start of the process. */
    function Watermark(q: Request): int {
      if q.notBefore.Some? then q.notBefore.value else startEpoch
    }

    /** What the operator is asked for, or the exit when there is nobody to ask. */
    function Prompted(q: Request): Outcome {
      if !q.tty then Exit
      else match links.extract(q.typed) case None => BadToken case Some(t) => FromPrompt(t)
    }

    /** Nobody is asked where nobody can answer, and what is typed is what counts. */
    lemma PromptAsksOperator(q: Request)
      ensures Prompted(q).Exit? <==> !q.tty
      ensures forall t :: Prompted(q) == FromPrompt(t) <==> q.tty && links.extract(q.typed) == Some(t)
      ensures Prompted(q) == BadToken <==> q.tty && links.extract(q.typed) == None
    {
    }

    /** What a call gives that began at `began` with a reader or without, and asked what it asked. */
    ghost predicate Resolved(q: Request, began: int, reader: bool, c: Call) {
      if q.preset.Some? && q.preset.value != "" then
        && c.asked == [] && c.link.None?
        && c.outcome == match links.extract(q.preset.value) case None => BadToken case Some(t) => FromEnv(t)
      else if !reader then
        c.asked == [] && c.link.None? && c.outcome == Prompted(q)
      else
        && (var since := match q.notBefore case None => startEpoch case Some(n) => n;
            EndsWith(links, Quest(q.poll, q.invitee, since, began + POLL_TIMEOUT), c.asked, c.link))
        && c.outcome == match c.link
             case None => Prompted(q)
             case Some(l) => match links.extract(l) case None => BadToken case Some(t) => FromMailbox(t)
    }

    method ResolveToken(q: Request) returns (r: Outcome, ghost c: Call)
      requires Valid()
      modifies this
      ensures Valid() && requests == old(requests) + c.asked
      ensures c.outcome == r && c.began == old(clock) && c.reader == old(readerOn)
      ensures Resolved(q, old(clock), old(readerOn), c)
      ensures readerOn == (old(readerOn) && !InVain(c))
      ensures fruitless == old(fruitless) + if InVain(c) then 1 else 0
      ensures stderr >= old(stderr)
    {
      if q.preset.Some? && q.preset.value != "" {
        var given := links.extract(q.preset.value);
        r := if given.None? then BadToken else FromEnv(given.value);
        c := Call(old(clock), readerOn, [], None, r);
        return;
      }
      var effective := Watermark(q);
      var mailbox, error;
      ghost var asked, link;
      mailbox, error, asked, link := MailboxToken(q.poll, q.invitee, effective);
      if error {
        r := BadToken;
      } else if mailbox.Some? {
        r := FromMailbox(mailbox.value);
      } else if !q.tty {
        r := Exit;
      } else {
        var pasted := links.extract(q.typed);
        r := if pasted.None? then BadToken else FromPrompt(pasted.value);
      }
      c := Call(old(clock), old(readerOn), asked, link, r);
    }

    /** Every call of the run gives what it should, and has a reader exactly while no earlier one asked in vain. */
    ghost predicate Run(qs: seq<Request>, calls: seq<Call>, reader: bool) {
      && |calls| <= |qs|
      && (calls == [] ||
          var before, c := calls[..|calls| - 1], calls[|calls| - 1];
          && Run(qs, before, reader)
          && Resolved(qs[|before|], c.began, c.reader, c)
          && (c.reader <==> reader && AllFruitful(before)))
    }

    lemma OneMoreCall(qs: seq<Request>, calls: seq<Call>, reader: bool, c: Call)
      requires Run(qs, calls, reader) && |calls| < |qs|
      requires Resolved(qs[|calls|], c.began, c.reader, c)
      requires c.reader <==> reader && AllFruitful(calls)
      ensures Run(qs, calls + [c], reader)
    {
      assert (calls + [c])[..|calls|] == calls;
    }

    /** Where the relay stands after the calls made so far. */
    ghost predicate Progress(qs: seq<Request>, calls: seq<Call>, reader: bool, before: seq<Asked>)
      reads this`fruitless, this`readerOn, this`requests
    {
      && Run(qs, calls, reader)
      && requests == before + AllAsked(calls)
      && (fruitless == 0 <==> AllFruitful(calls))
      && (readerOn <==> reader && AllFruitful(calls))
    }

    method ResolveNext(q: Request, ghost qs: seq<Request>, ghost calls: seq<Call>, ghost reader: bool,
                       ghost before: seq<Asked>)
      returns (r: Outcome, ghost more: seq<Call>)
      requires Valid() && |calls| < |qs| && q == qs[|calls|] && Progress(qs, calls, reader, before)
      modifies this
      ensures Valid() && |more| == |calls| + 1 && Progress(qs, more, reader, before)
      ensures Outcomes(more) == Outcomes(calls) + [r]
    {
      ghost var c;
      r, c := ResolveToken(q);
      OneMoreCall(qs, calls, reader, c);
      CallsStep(calls, c);
      more := calls + [c];
    }

    /**
    A whole run after one configuration: however many tokens are resolved, at most one call polls the
    mailbox in vain, at most one warning is printed, and a reader that is off stays off.
    */
    method ResolveAll(qs: seq<Request>) returns (outcomes: seq<Outcome>, ghost calls: seq<Call>)
      requires Valid() && fruitless == 0
      modifies this
      ensures Valid() && fruitless <= 1 && stderr <= 1
      ensures readerOn <==> old(readerOn) && AllFruitful(calls)
      ensures |calls| == |qs| && outcomes == Outcomes(calls)
      ensures requests == old(requests) + AllAsked(calls)
      ensures Run(qs, calls, old(readerOn)) && OneInVain(calls) && NoReturn(calls)
    {
      outcomes, calls := [], [];
      for i := 0 to |qs|
        invariant Valid() && |calls| == i && outcomes == Outcomes(calls)
        invariant Progress(qs, calls, old(readerOn), old(requests))
      {
        var r;
        r, calls := ResolveNext(qs[i], qs, calls, old(readerOn), old(requests));
        outcomes := outcomes + [r];
      }
      ReaderLost(qs, calls, old(readerOn));
    }

    lemma {:induction false} ReaderLost(qs: seq<Request>, calls: seq<Call>, reader: bool)
      requires Run(qs, calls, reader)
      ensures OneInVain(calls) && NoReturn(calls)
    {
      if calls != [] {
        var before, c := calls[..|calls| - 1], calls[|calls| - 1];
        ReaderLost(qs, before, reader);
        assert forall i | 0 <= i < |before| :: before[i] == calls[i];
        if !AllFruitful(before) {
          assert !c.reader && c.asked == [] && !c.outcome.FromMailbox?;
        }
      }
    }
  }

  /** One call: when it began, whether there was a reader, what it asked and found, and what it gave. */
  datatype Call = Call(began: int, reader: bool, asked: seq<Asked>, link: Option<string>, outcome: Outcome)

  predicate InVain(c: Call) {
    c.asked != [] && c.link.None?
  }

  predicate AllFruitful(calls: seq<Call>) {
    forall i | 0 <= i < |calls| :: !InVain(calls[i])
  }

  function Outcomes(calls: seq<Call>): seq<Outcome> {
    seq(|calls|, i requires 0 <= i < |calls| => calls[i].outcome)
  }

  lemma CallsStep(calls: seq<Call>, c: Call)
    ensures AllFruitful(calls + [c]) <==> AllFruitful(calls) && !InVain(c)
    ensures forall before :: before + AllAsked(calls + [c]) == before + AllAsked(calls) + c.asked
    ensures Outcomes(calls + [c]) == Outcomes(calls) + [c.outcome]
  {
    var more := calls + [c];
    assert more[..|calls|] == calls;
    assert more[|calls|] == c;
    assert forall i | 0 <= i < |calls| :: more[i] == calls[i];
  }

  /** All requests of a run, in order. */
  function AllAsked(calls: seq<Call>): seq<Asked> {
    if calls == [] then [] else AllAsked(calls[..|calls| - 1]) + calls[|calls| - 1].asked
  }

  ghost predicate OneInVain(calls: seq<Call>) {
    forall i, j | 0 <= i < j < |calls| :: !(InVain(calls[i]) && InVain(calls[j]))
  }

  /** After a call that asked in vain the mailbox is not asked again, and gives no token. */
  ghost predicate NoReturn(calls: seq<Call>) {
    forall i, j | 0 <= i < j < |calls| && InVain(calls[i]) :: calls[j].asked == [] && !calls[j].outcome.FromMailbox?
  }
}
