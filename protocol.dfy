/** The wire protocol shared by the Socket.IO server and the browser clients: the
    poll snapshot, the chat payloads, the events each side emits, and the three
    delivery audiences of Socket.IO (`socket.emit`, `io.emit`, `socket.broadcast.emit`). */
module Protocol {
  import opened Wrappers

  /** Socket.IO's per-connection identifier (`socket.id`). */
  type SocketId = string

  /** A JSON object as a client sends it, restricted to string-valued fields. */
  type Payload = map<string, string>

  /** A field of a payload, `undefined` when absent. */
  function Lookup(p: Payload, key: string): (r: Option<string>)
    ensures r.Some? <==> key in p
    ensures r.Some? ==> r.value == p[key]
  {
    if key in p then Some(p[key]) else None
  }

  /** JavaScript truthiness of an optional string field: present and non-empty. */
  predicate Truthy(v: Option<string>) {
    v.Some? && v.value != ""
  }

  /** `x || fallback` on an optional string field. */
  function OrElse(v: Option<string>, fallback: string): (r: string)
    ensures Truthy(v) ==> r == v.value
    ensures !Truthy(v) ==> r == fallback
  {
    if Truthy(v) then v.value else fallback
  }

  datatype PollOption = PollOption(id: string, text: string, votes: nat)

  /** The `update_poll` payload: question, options and the derived vote total. */
  datatype PollSnapshot = PollSnapshot(question: string, options: seq<PollOption>, totalVotes: nat)

  /** `options.reduce((acc, opt) => acc + opt.votes, 0)`. */
  function TotalVotes(options: seq<PollOption>): nat {
    if options == [] then 0 else options[0].votes + TotalVotes(options[1..])
  }

  /** Changing one option's count changes the total by the same amount. */
  lemma {:induction false} TotalVotesUpdate(options: seq<PollOption>, i: nat, v: nat)
    requires i < |options|
    ensures TotalVotes(options[i := options[i].(votes := v)]) == TotalVotes(options) - options[i].votes + v
  {
    var updated := options[i := options[i].(votes := v)];
    if i > 0 {
      assert updated[1..] == options[1..][i - 1 := options[i].(votes := v)];
      TotalVotesUpdate(options[1..], i - 1, v);
    }
    else {
      assert updated[1..] == options[1..];
    }
  }

  /** No option has more votes than the total. */
  lemma {:induction false} VotesBoundedByTotal(options: seq<PollOption>, i: nat)
    requires i < |options|
    ensures options[i].votes <= TotalVotes(options)
  {
    if i > 0 {
      VotesBoundedByTotal(options[1..], i - 1);
    }
  }

  /** Events a browser emits to the server. A vote carries only the option id. */
  datatype ClientEvent =
    | SendMessage(data: Payload)
    | Typing(data: Payload)
    | StopTyping
    | RequestPoll
    | Vote(optionId: string)

  /** Events the server emits to browsers. */
  datatype ServerEvent =
    | UpdatePoll(poll: PollSnapshot)
    | ReceiveMessage(data: Payload)
    | DisplayTyping(data: Payload)
    | StopDisplayTyping(data: Payload)

  /** `socket.emit` (the sender only), `io.emit` (every connection) and
      `socket.broadcast.emit` (every connection but the sender). */
  datatype Audience = SenderOnly | Everyone | AllButSender

  /** One emitted event, with the connection whose handler emitted it. */
  datatype Emission = Emission(audience: Audience, origin: SocketId, event: ServerEvent)

  /** The connections an emission reaches, given the connections open at the time. */
  function Recipients(e: Emission, connected: set<SocketId>): (r: set<SocketId>)
    ensures r <= connected
    ensures e.origin in r <==> e.origin in connected && e.audience != AllButSender
    ensures forall x :: x in connected && x != e.origin ==> (x in r <==> e.audience != SenderOnly)
  {
    match e.audience
    case SenderOnly => connected * {e.origin}
    case Everyone => connected
    case AllButSender => connected - {e.origin}
  }
}
