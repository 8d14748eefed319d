/** The Socket.IO handler of the backend: one poll kept in memory, mutated by
    `vote`, and the chat and typing relays. Every handler runs as one atomic step
    that appends what it emits to an outbox, tagged with its audience. */
module Sockets {
  import opened Wrappers
  import opened Protocol

  const InitialQuestion: string := "What is your favorite programming language?"

  const InitialOptions: seq<PollOption> := [
    PollOption("1", "JavaScript / TypeScript", 0),
    PollOption("2", "Python", 0),
    PollOption("3", "Rust", 0),
    PollOption("4", "Go", 0)
  ]

  /** The index `options.find(opt => opt.id === optionId)` lands on: the first
      option with that id, or none. */
  function FirstMatch(options: seq<PollOption>, optionId: string): (r: Option<nat>)
    ensures r.Some? ==> r.value < |options| && options[r.value].id == optionId
    ensures r.Some? ==> forall j :: 0 <= j < r.value ==> options[j].id != optionId
    ensures r.None? <==> forall j :: 0 <= j < |options| ==> options[j].id != optionId
  {
    if options == [] then None
    else if options[0].id == optionId then Some(0)
    else match FirstMatch(options[1..], optionId)
      case None => None
      case Some(i) => Some(i + 1)
  }

  /** The poll after one `vote` event: the found option gains one vote. */
  function ApplyVote(options: seq<PollOption>, optionId: string): seq<PollOption> {
    match FirstMatch(options, optionId)
    case None => options
    case Some(i) => options[i := options[i].(votes := options[i].votes + 1)]
  }

  /** Ids, texts and positions are what a vote never touches. */
  predicate SameShape(a: seq<PollOption>, b: seq<PollOption>) {
    |a| == |b| && forall i :: 0 <= i < |a| ==> a[i].id == b[i].id && a[i].text == b[i].text
  }

  /** A vote for a listed id adds exactly one vote to the first option with that id
      and leaves every other count, and every id, text and position, as it was; a
      vote for an unlisted id changes nothing. */
  lemma ApplyVoteEffect(options: seq<PollOption>, optionId: string)
    ensures SameShape(ApplyVote(options, optionId), options)
    ensures FirstMatch(options, optionId).None? ==> ApplyVote(options, optionId) == options
    ensures FirstMatch(options, optionId).Some? ==>
      var i := FirstMatch(options, optionId).value;
      && ApplyVote(options, optionId)[i].votes == options[i].votes + 1
      && forall j :: 0 <= j < |options| && j != i ==> ApplyVote(options, optionId)[j] == options[j]
    ensures TotalVotes(ApplyVote(options, optionId))
      == TotalVotes(options) + (if FirstMatch(options, optionId).Some? then 1 else 0)
  {
    match FirstMatch(options, optionId)
    case None =>
    case Some(i) => TotalVotesUpdate(options, i, options[i].votes + 1);
  }

  /** Options with the same ids in the same order find the same index. */
  lemma {:induction false} FirstMatchShape(a: seq<PollOption>, b: seq<PollOption>, optionId: string)
    requires SameShape(a, b)
    ensures FirstMatch(a, optionId) == FirstMatch(b, optionId)
  {
    if a != [] && a[0].id != optionId {
      FirstMatchShape(a[1..], b[1..], optionId);
    }
  }

  /** The poll after a sequence of `vote` events, in arrival order. */
  function ApplyVotes(options: seq<PollOption>, votes: seq<string>): seq<PollOption>
    decreases votes
  {
    if votes == [] then options else ApplyVotes(ApplyVote(options, votes[0]), votes[1..])
  }

  /** The same voter voting "2" twice on the starting poll: both votes count. */
  lemma RepeatedVoteCounted()
    ensures ApplyVotes(InitialOptions, ["2", "2"])[1] == PollOption("2", "Python", 2)
    ensures TotalVotes(ApplyVotes(InitialOptions, ["2", "2"])) == 2
  {
    var once := ApplyVote(InitialOptions, "2");
    assert FirstMatch(InitialOptions, "2") == Some(1);
    assert once == InitialOptions[1 := PollOption("2", "Python", 1)];
    assert FirstMatch(once, "2") == Some(1);
    var twice := ApplyVote(once, "2");
    assert twice == InitialOptions[1 := PollOption("2", "Python", 2)];
    assert ApplyVotes(once, ["2"]) == twice by {
      assert ["2"][1..] == [];
    }
    assert ["2", "2"][1..] == ["2"];
    ApplyVoteEffect(InitialOptions, "2");
    ApplyVoteEffect(once, "2");
    assert TotalVotes(InitialOptions) == 0 by {
      assert TotalVotes(InitialOptions[3..]) == 0;
      assert TotalVotes(InitialOptions[2..]) == 0;
      assert TotalVotes(InitialOptions[1..]) == 0;
    }
  }

  /** How many of the votes name an option of the poll. */
  function CountListed(options: seq<PollOption>, votes: seq<string>): nat {
    if votes == [] then 0
    else (if FirstMatch(options, votes[0]).Some? then 1 else 0) + CountListed(options, votes[1..])
  }

  lemma {:induction false} CountListedShape(a: seq<PollOption>, b: seq<PollOption>, votes: seq<string>)
    requires SameShape(a, b)
    ensures CountListed(a, votes) == CountListed(b, votes)
  {
    if votes != [] {
      FirstMatchShape(a, b, votes[0]);
      CountListedShape(a, b, votes[1..]);
    }
  }

  /** There is no per-voter check: every vote for a listed option, repeated or not,
      adds one to the total, no count ever goes down, and the shape never changes. */
  lemma {:induction false} ApplyVotesEffect(options: seq<PollOption>, votes: seq<string>)
    ensures SameShape(ApplyVotes(options, votes), options)
    ensures TotalVotes(ApplyVotes(options, votes)) == TotalVotes(options) + CountListed(options, votes)
    ensures forall i :: 0 <= i < |options| ==> options[i].votes <= ApplyVotes(options, votes)[i].votes
    decreases votes
  {
    if votes != [] {
      var next := ApplyVote(options, votes[0]);
      ApplyVoteEffect(options, votes[0]);
      ApplyVotesEffect(next, votes[1..]);
      CountListedShape(next, options, votes[1..]);
      assert forall i :: 0 <= i < |options| ==> options[i].votes <= next[i].votes;
    }
  }

  /** `{ ...data, id: socket.id, timestamp: new Date() }`: every client field is kept
      except `id` and `timestamp`, which the server overwrites. */
  function StampMessage(data: Payload, sender: SocketId, now: string): (r: Payload)
    ensures r.Keys == data.Keys + {"id", "timestamp"}
    ensures r["id"] == sender && r["timestamp"] == now
    ensures forall k :: k in data && k != "id" && k != "timestamp" ==> r[k] == data[k]
  {
    data + map["id" := sender, "timestamp" := now]
  }

  /** `{ ...data, id: socket.id }`: every client field is kept except `id`. */
  function StampTyping(data: Payload, sender: SocketId): (r: Payload)
    ensures r.Keys == data.Keys + {"id"}
    ensures r["id"] == sender
    ensures forall k :: k in data && k != "id" ==> r[k] == data[k]
  {
    data + map["id" := sender]
  }

  /** Every `update_poll` in the outbox reports the total of its own options. */
  ghost predicate SnapshotsConsistent(outbox: seq<Emission>) {
    forall k :: 0 <= k < |outbox| && outbox[k].event.UpdatePoll? ==>
      outbox[k].event.poll.totalVotes == TotalVotes(outbox[k].event.poll.options)
  }

  /** The state of `setupSocketIO`: the `currentPoll` closure variable and what the
      handlers have emitted so far. The option array is the one `vote` mutates. */
  class PollServer {
    var question: string
    const options: array<PollOption>
    var outbox: seq<Emission>

    ghost predicate Valid()
      reads this, options
    {
      && question == InitialQuestion
      && SameShape(options[..], InitialOptions)
      && SnapshotsConsistent(outbox)
    }

    /** The `update_poll` payload built from the current poll. */
    function Snapshot(): (p: PollSnapshot)
      reads this, options
      ensures p.totalVotes == TotalVotes(p.options)
    {
      PollSnapshot(question, options[..], TotalVotes(options[..]))
    }

    /** The poll every server starts with: four options "1" to "4", no votes. */
    constructor ()
      ensures Valid() && fresh(options)
      ensures question == InitialQuestion && options[..] == InitialOptions
      ensures TotalVotes(options[..]) == 0
      ensures outbox == []
    {
      question := InitialQuestion;
      options := new PollOption[4] [InitialOptions[0], InitialOptions[1], InitialOptions[2], InitialOptions[3]];
      outbox := [];
      new;
      assert options[..] == InitialOptions;
    }

    /** A new connection is sent the current poll, and only it. */
    method Connect(sid: SocketId)
      requires Valid()
      modifies this
      ensures Valid() && question == old(question)
      ensures outbox == old(outbox) + [Emission(SenderOnly, sid, UpdatePoll(Snapshot()))]
    {
      outbox := outbox + [Emission(SenderOnly, sid, UpdatePoll(Snapshot()))];
    }

    /** `request_poll`: the current poll, to the requesting connection only. */
    method RequestPoll(sid: SocketId)
      requires Valid()
      modifies this
      ensures Valid() && question == old(question)
      ensures outbox == old(outbox) + [Emission(SenderOnly, sid, UpdatePoll(Snapshot()))]
    {
      outbox := outbox + [Emission(SenderOnly, sid, UpdatePoll(Snapshot()))];
    }

    /** The linear search of `options.find`. */
    method FindOption(optionId: string) returns (found: Option<nat>)
      ensures found == FirstMatch(options[..], optionId)
    {
      var i := 0;
      while i < options.Length
        invariant 0 <= i <= options.Length
        invariant forall j :: 0 <= j < i ==> options[j].id != optionId
      {
        if options[i].id == optionId {
          return Some(i);
        }
        i := i + 1;
      }
      return None;
    }

    /** `vote`: a listed option gains one vote and the new poll goes to every
        connection; an unlisted id changes nothing and emits nothing. */
    method Vote(sid: SocketId, optionId: string)
      requires Valid()
      modifies this, options
      ensures Valid() && question == old(question)
      ensures options[..] == ApplyVote(old(options[..]), optionId)
      ensures TotalVotes(options[..]) == TotalVotes(old(options[..])) + (if FirstMatch(old(options[..]), optionId).Some? then 1 else 0)
      ensures forall i :: 0 <= i < options.Length ==> old(options[i].votes) <= options[i].votes
      ensures FirstMatch(old(options[..]), optionId).Some? ==>
        outbox == old(outbox) + [Emission(Everyone, sid, UpdatePoll(Snapshot()))]
      ensures FirstMatch(old(options[..]), optionId).None? ==> outbox == old(outbox)
    {
      ApplyVoteEffect(options[..], optionId);
      var found := FindOption(optionId);
      match found {
        case None =>
        case Some(i) =>
          options[i] := options[i].(votes := options[i].votes + 1);
          outbox := outbox + [Emission(Everyone, sid, UpdatePoll(Snapshot()))];
      }
    }

    /** `send_message`: the client payload, stamped with the sender's id and the
        server time, to every connection including the sender. */
    method SendMessage(sid: SocketId, data: Payload, now: string)
      requires Valid()
      modifies this
      ensures Valid() && question == old(question)
      ensures outbox == old(outbox) + [Emission(Everyone, sid, ReceiveMessage(StampMessage(data, sid, now)))]
    {
      outbox := outbox + [Emission(Everyone, sid, ReceiveMessage(StampMessage(data, sid, now)))];
    }

    /** `typing`: the client payload plus the sender's id, to everyone else. */
    method Typing(sid: SocketId, data: Payload)
      requires Valid()
      modifies this
      ensures Valid() && question == old(question)
      ensures outbox == old(outbox) + [Emission(AllButSender, sid, DisplayTyping(StampTyping(data, sid)))]
    {
      outbox := outbox + [Emission(AllButSender, sid, DisplayTyping(StampTyping(data, sid)))];
    }

    /** `stop_typing`: only the sender's id, to everyone else. */
    method StopTyping(sid: SocketId)
      requires Valid()
      modifies this
      ensures Valid() && question == old(question)
      ensures outbox == old(outbox) + [Emission(AllButSender, sid, StopDisplayTyping(map["id" := sid]))]
    {
      outbox := outbox + [Emission(AllButSender, sid, StopDisplayTyping(map["id" := sid]))];
    }

    /** The `socket.on` table: routes a client event to its handler. `now` is the
        server clock, read only by `send_message`. */
    method Handle(sid: SocketId, ev: ClientEvent, now: string)
      requires Valid()
      modifies this, options
      ensures Valid() && question == old(question)
      ensures !ev.Vote? ==> options[..] == old(options[..])
      ensures ev.Vote? ==> options[..] == ApplyVote(old(options[..]), ev.optionId)
      ensures |outbox| == |old(outbox)| + (if ev.Vote? && FirstMatch(old(options[..]), ev.optionId).None? then 0 else 1)
      ensures outbox[..|old(outbox)|] == old(outbox)
      ensures ev.SendMessage? ==>
        outbox == old(outbox) + [Emission(Everyone, sid, ReceiveMessage(StampMessage(ev.data, sid, now)))]
      ensures ev.Typing? ==>
        outbox == old(outbox) + [Emission(AllButSender, sid, DisplayTyping(StampTyping(ev.data, sid)))]
      ensures ev.StopTyping? ==>
        outbox == old(outbox) + [Emission(AllButSender, sid, StopDisplayTyping(map["id" := sid]))]
      ensures ev.RequestPoll? ==>
        outbox == old(outbox) + [Emission(SenderOnly, sid, UpdatePoll(Snapshot()))]
      ensures ev.Vote? && FirstMatch(old(options[..]), ev.optionId).Some? ==>
        outbox == old(outbox) + [Emission(Everyone, sid, UpdatePoll(Snapshot()))]
    {
      match ev
      case SendMessage(data) => SendMessage(sid, data, now);
      case Typing(data) => Typing(sid, data);
      case StopTyping => StopTyping(sid);
      case RequestPoll => RequestPoll(sid);
      case Vote(optionId) => Vote(sid, optionId);
    }
  }

  /** The scenario of two connections: what A emits while typing never comes back to
      A, and reaches every other open connection. */
  lemma TypingNotEchoed(a: SocketId, data: Payload, connected: set<SocketId>)
    ensures a !in Recipients(Emission(AllButSender, a, DisplayTyping(StampTyping(data, a))), connected)
    ensures a !in Recipients(Emission(AllButSender, a, StopDisplayTyping(map["id" := a])), connected)
    ensures forall b :: b in connected && b != a ==>
      b in Recipients(Emission(AllButSender, a, DisplayTyping(StampTyping(data, a))), connected)
  {
  }
}
