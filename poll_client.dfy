/** The poll component of the browser client: the one-vote guard, the snapshot it
    renders, and the per-option percentage and leader marks. */
module PollClient {
  import opened Wrappers
  import opened Protocol

  // ---------------------------------------------------------------------------
  // Rendering arithmetic
  // ---------------------------------------------------------------------------

  /** `Math.max(...options.map(o => o.votes))`, where the maximum of no values
      (`-Infinity`) is `None`. */
  function MaxVotes(options: seq<PollOption>): (r: Option<nat>)
    ensures r.None? <==> options == []
    ensures r.Some? ==> exists i :: 0 <= i < |options| && options[i].votes == r.value
    ensures r.Some? ==> forall i :: 0 <= i < |options| ==> options[i].votes <= r.value
  {
    if options == [] then None
    else match MaxVotes(options[1..]) {
      case None => Some(options[0].votes)
      case Some(m) => Some(if options[0].votes < m then m else options[0].votes)
    }
  }

  /** An option is highlighted as leader when votes have been cast and it has the
      most of them. */
  predicate IsLeader(poll: PollSnapshot, option: PollOption) {
    poll.totalVotes > 0 && MaxVotes(poll.options) == Some(option.votes)
  }

  /** Leader means no option has more votes; ties make several leaders. */
  lemma LeaderIff(poll: PollSnapshot, i: nat)
    requires i < |poll.options|
    ensures IsLeader(poll, poll.options[i]) <==>
      poll.totalVotes > 0 && forall j :: 0 <= j < |poll.options| ==> poll.options[j].votes <= poll.options[i].votes
  {
    var m := MaxVotes(poll.options);
    assert m.Some?;
    if poll.totalVotes > 0 && forall j :: 0 <= j < |poll.options| ==> poll.options[j].votes <= poll.options[i].votes {
      var k :| 0 <= k < |poll.options| && poll.options[k].votes == m.value;
      assert poll.options[k].votes <= poll.options[i].votes;
    }
  }

  /** Once a vote is counted and there is an option, some option is the leader. */
  lemma SomeLeader(poll: PollSnapshot)
    requires poll.totalVotes > 0 && poll.options != []
    ensures exists i :: 0 <= i < |poll.options| && IsLeader(poll, poll.options[i])
  {
    var k :| 0 <= k < |poll.options| && poll.options[k].votes == MaxVotes(poll.options).value;
    assert IsLeader(poll, poll.options[k]);
  }

  /** `Math.round(votes / total * 100)` in exact arithmetic, or 0 when nothing has
      been cast: the whole number nearest to the share, halves rounded up. */
  function Percentage(votes: nat, total: nat): (r: nat)
    ensures total == 0 ==> r == 0
    ensures total > 0 ==> 2 * total * r <= 200 * votes + total < 2 * total * (r + 1)
    ensures votes <= total ==> r <= 100
    ensures votes == total && total > 0 ==> r == 100
  {
    if total == 0 then 0
    else
      var r := (200 * votes + total) / (2 * total);
      RoundingBounds(votes, total, r);
      r
  }

  lemma RoundingBounds(votes: nat, total: nat, r: nat)
    requires total > 0 && r == (200 * votes + total) / (2 * total)
    ensures 2 * total * r <= 200 * votes + total < 2 * total * (r + 1)
    ensures votes <= total ==> r <= 100
    ensures votes == total ==> r == 100
  {
    var n, d := 200 * votes + total, 2 * total;
    var rem := n % d;
    assert n == d * r + rem && 0 <= rem < d;
    assert d * (r + 1) == d * r + d;
    if votes <= total {
      assert n < d * 101;
      if r >= 101 {
        MulMonotone(d, 101, r);
        assert false;
      }
    }
    if votes == total {
      assert n == d * 100 + total;
      if r < 100 {
        MulMonotone(d, r + 1, 100);
        assert false;
      }
    }
  }

  lemma MulMonotone(d: nat, a: nat, b: nat)
    requires a <= b
    ensures d * a <= d * b
  {
    assert d * b == d * a + d * (b - a);
  }

  /** Every bar of a snapshot whose total is the sum of its options is at most
      100 percent wide. */
  lemma PercentageOfSnapshot(poll: PollSnapshot, i: nat)
    requires poll.totalVotes == TotalVotes(poll.options)
    requires i < |poll.options|
    ensures Percentage(poll.options[i].votes, poll.totalVotes) <= 100
  {
    VotesBoundedByTotal(poll.options, i);
  }

  // ---------------------------------------------------------------------------
  // The component state
  // ---------------------------------------------------------------------------

  /** The option ids of the `vote` events, in the order they were emitted. */
  function VotesSent(events: seq<ClientEvent>): seq<string> {
    if events == [] then []
    else
      var last := events[|events| - 1];
      VotesSent(events[..|events| - 1]) + (if last.Vote? then [last.optionId] else [])
  }

  lemma VotesSentAppend(events: seq<ClientEvent>, e: ClientEvent)
    ensures VotesSent(events + [e]) == VotesSent(events) + (if e.Vote? then [e.optionId] else [])
  {
    assert (events + [e])[..|events|] == events;
  }

  /** The `Poll` component: the latest snapshot (none before the first
      `update_poll`), whether this client has voted and for which option, and the
      events it has emitted. */
  class PollView {
    var poll: Option<PollSnapshot>
    var hasVoted: bool
    var selectedOption: Option<string>
    var outbox: seq<ClientEvent>

    /** At most one vote leaves a client, and it is the selected option. */
    ghost predicate Valid()
      reads this
    {
      && (hasVoted <==> selectedOption.Some?)
      && VotesSent(outbox) == (if hasVoted then [selectedOption.value] else [])
    }

    /** Mounting: nothing shown yet, and `request_poll` is emitted. */
    constructor ()
      ensures Valid()
      ensures poll == None && !hasVoted && selectedOption == None
      ensures outbox == [RequestPoll]
    {
      poll, hasVoted, selectedOption := None, false, None;
      outbox := [RequestPoll];
      VotesSentAppend([], RequestPoll);
    }

    /** `update_poll`: the snapshot is replaced; the vote state is untouched. */
    method UpdatePoll(data: PollSnapshot)
      modifies this`poll
      ensures poll == Some(data)
    {
      poll := Some(data);
    }

    /** `handleVote`: the first call selects the option and emits `vote`; every
        later call does nothing. */
    method HandleVote(optionId: string)
      requires Valid()
      modifies this`hasVoted, this`selectedOption, this`outbox
      ensures Valid()
      ensures old(hasVoted) ==> hasVoted == old(hasVoted) && selectedOption == old(selectedOption) && outbox == old(outbox)
      ensures !old(hasVoted) ==>
        hasVoted && selectedOption == Some(optionId) && outbox == old(outbox) + [Vote(optionId)]
      ensures |VotesSent(outbox)| <= 1
    {
      if hasVoted {
        return;
      }
      VotesSentAppend(outbox, Vote(optionId));
      selectedOption := Some(optionId);
      hasVoted := true;
      outbox := outbox + [Vote(optionId)];
    }
  }
}
