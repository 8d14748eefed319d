/** The chat component of the browser client: the avatar helpers, the message list
    fed by `receive_message`, the typing indicator, and the send guard. */
module ChatClient {
  import opened Wrappers
  import opened Protocol
  import JsString

  // ---------------------------------------------------------------------------
  // getInitials
  // ---------------------------------------------------------------------------

  /** `s.split(' ')`: the pieces between single spaces, empty pieces included. */
  function Split(s: string): (words: seq<string>)
    ensures |words| >= 1
    ensures forall i :: 0 <= i < |words| ==> ' ' !in words[i]
  {
    if s == [] then [""]
    else
      var rest := Split(s[1..]);
      if s[0] == ' ' then [""] + rest
      else [[s[0]] + rest[0]] + rest[1..]
  }

  /** `words.join(sep)`. */
  function Join(words: seq<string>, sep: string): string {
    if |words| == 0 then ""
    else if |words| == 1 then words[0]
    else words[0] + sep + Join(words[1..], sep)
  }

  /** Splitting on spaces and joining with a space gives the string back. */
  lemma {:induction false} SplitJoin(s: string)
    ensures Join(Split(s), " ") == s
  {
    if s != [] {
      var rest := Split(s[1..]);
      SplitJoin(s[1..]);
      if s[0] == ' ' {
        assert ([""] + rest)[1..] == rest;
      } else {
        var w := [[s[0]] + rest[0]] + rest[1..];
        if |rest| > 1 {
          assert w[1..] == rest[1..];
          assert Join(rest, " ") == rest[0] + " " + Join(rest[1..], " ");
        }
      }
    }
  }

  /** `n[0]` of a word, where the `undefined` of an empty word joins as "". */
  function Head(w: string): string {
    if w == [] then "" else [w[0]]
  }

  /** `words.map(n => n[0]).join('')`. */
  function Heads(words: seq<string>): string {
    if words == [] then "" else Head(words[0]) + Heads(words[1..])
  }

  lemma {:induction false} HeadsAppend(a: seq<string>, b: seq<string>)
    ensures Heads(a + b) == Heads(a) + Heads(b)
  {
    if a != [] {
      assert (a + b)[0] == a[0] && (a + b)[1..] == a[1..] + b;
      HeadsAppend(a[1..], b);
      calc {
        Heads(a + b);
        Head(a[0]) + Heads(a[1..] + b);
        Head(a[0]) + (Heads(a[1..]) + Heads(b));
        (Head(a[0]) + Heads(a[1..])) + Heads(b);
      }
    } else {
      assert a + b == b;
    }
  }

  /** The characters of `s` that begin a word: not a space, and first or right
      after a space. `atStart` says whether the previous character was a space (or
      there was none). */
  function WordStarts(s: string, atStart: bool): string {
    if s == [] then ""
    else if s[0] == ' ' then WordStarts(s[1..], true)
    else (if atStart then [s[0]] else "") + WordStarts(s[1..], false)
  }

  lemma {:induction false} HeadsOfSplit(s: string)
    ensures Heads(Split(s)) == WordStarts(s, true)
    ensures Heads(Split(s)[1..]) == WordStarts(s, false)
  {
    if s != [] {
      var rest := Split(s[1..]);
      HeadsOfSplit(s[1..]);
      if s[0] == ' ' {
        assert Split(s) == [""] + rest;
        HeadsAppend([""], rest);
        assert Split(s)[1..] == rest;
      } else {
        assert Split(s) == [[s[0]] + rest[0]] + rest[1..];
        HeadsAppend([[s[0]] + rest[0]], rest[1..]);
        assert Split(s)[1..] == rest[1..];
        assert rest == [rest[0]] + rest[1..];
        HeadsAppend([rest[0]], rest[1..]);
      }
    }
  }

  /** `str.slice(0, 2)`. */
  function TakeTwo(s: string): (r: string)
    ensures |r| == if |s| < 2 then |s| else 2
    ensures r == s[..|r|]
  {
    if |s| <= 2 then s else s[..2]
  }

  /** `getInitials`: at most two characters, the upper-cased first letters of the
      space-separated words in order; empty words (from repeated, leading or
      trailing spaces) contribute nothing. */
  function GetInitials(name: string): (r: string)
    ensures |r| <= 2
    ensures r == TakeTwo(JsString.ToUpper(WordStarts(name, true)))
  {
    HeadsOfSplit(name);
    TakeTwo(JsString.ToUpper(Heads(Split(name))))
  }

  // ---------------------------------------------------------------------------
  // getUserColor
  // ---------------------------------------------------------------------------

  datatype Gradient = Gradient(from: string, to: string)

  const Palette: seq<Gradient> := [
    Gradient("#3b82f6", "#9333ea"),
    Gradient("#ec4899", "#e11d48"),
    Gradient("#22c55e", "#059669"),
    Gradient("#f97316", "#d97706"),
    Gradient("#06b6d4", "#0d9488"),
    Gradient("#8b5cf6", "#4f46e5")
  ]

  /** The sum of `charCodeAt(0)` over `split('')` for one character: its UTF-16 code
      unit, or the two surrogates of a character beyond the BMP. */
  function CodeUnitSum(c: char): nat {
    var v := c as int;
    if v <= 0xFFFF then v
    else (0xD800 + (v - 0x1_0000) / 0x400) + (0xDC00 + (v - 0x1_0000) % 0x400)
  }

  /** `name.split('').reduce((acc, char) => acc + char.charCodeAt(0), 0)`. */
  function CodeSum(s: string): nat {
    if s == [] then 0 else CodeUnitSum(s[0]) + CodeSum(s[1..])
  }

  lemma {:induction false} CodeSumAppend(a: string, b: string)
    ensures CodeSum(a + b) == CodeSum(a) + CodeSum(b)
  {
    if a != [] {
      assert (a + b)[0] == a[0] && (a + b)[1..] == a[1..] + b;
      CodeSumAppend(a[1..], b);
    } else {
      assert a + b == b;
    }
  }

  /** The palette index, always one of the six colours. */
  function ColorIndex(name: string): (i: nat)
    ensures i < |Palette|
  {
    CodeSum(name) % |Palette|
  }

  /** `getUserColor`: one of the six gradients, chosen by the name alone. */
  function GetUserColor(name: string): (g: Gradient)
    ensures g in Palette
  {
    Palette[ColorIndex(name)]
  }

  /** The colour ignores the order of the name's parts. */
  lemma ColorIgnoresOrder(a: string, b: string)
    ensures GetUserColor(a + b) == GetUserColor(b + a)
  {
    CodeSumAppend(a, b);
    CodeSumAppend(b, a);
  }

  // ---------------------------------------------------------------------------
  // The component state
  // ---------------------------------------------------------------------------

  datatype Message = Message(id: Option<string>, username: string, text: Option<string>, timestamp: Option<string>)

  /** The message the `receive_message` handler builds; a missing or empty username
      becomes 'Anonymous', so no message has an empty username. */
  function MessageOf(data: Payload): (m: Message)
    ensures m.username != ""
    ensures Truthy(Lookup(data, "username")) ==> m.username == data["username"]
    ensures !Truthy(Lookup(data, "username")) ==> m.username == "Anonymous"
    ensures m.id == Lookup(data, "id") && m.text == Lookup(data, "text") && m.timestamp == Lookup(data, "timestamp")
  {
    Message(Lookup(data, "id"), OrElse(Lookup(data, "username"), "Anonymous"), Lookup(data, "text"), Lookup(data, "timestamp"))
  }

  /** A message is shown as the reader's own iff its username is the reader's. */
  predicate IsOwn(m: Message, currentUser: string) {
    m.username == currentUser
  }

  /** What the reader sees for a received payload: an anonymous message counts as
      the reader's own exactly when the reader is called 'Anonymous'. */
  lemma OwnMessageOf(data: Payload, currentUser: string)
    ensures IsOwn(MessageOf(data), currentUser) <==>
      if Truthy(Lookup(data, "username")) then data["username"] == currentUser else currentUser == "Anonymous"
  {
  }

  /** The `Chat` component: its `username` prop, its three pieces of state, and the
      events it has emitted on the socket. */
  class ChatView {
    const currentUser: string
    var messages: seq<Message>
    var input: string
    var typingUser: Option<string>
    var outbox: seq<ClientEvent>
    /** Whether the two-second typing timer is pending; the clock itself is left to
        whoever calls `TypingTimerFires`. */
    var timerArmed: bool

    constructor (username: string)
      ensures currentUser == username
      ensures messages == [] && input == "" && typingUser == None && outbox == [] && !timerArmed
    {
      currentUser := username;
      messages, input, typingUser, outbox := [], "", None, [];
      timerArmed := false;
    }

    /** `receive_message`: exactly one message is appended; earlier ones stay. */
    method ReceiveMessage(data: Payload)
      modifies this`messages
      ensures messages == old(messages) + [MessageOf(data)]
      ensures |messages| == |old(messages)| + 1 && messages[..|old(messages)|] == old(messages)
    {
      messages := messages + [MessageOf(data)];
    }

    /** `display_typing`: the payload's username, or 'Someone' if it is falsy. */
    method DisplayTyping(data: Payload)
      modifies this`typingUser
      ensures typingUser == Some(OrElse(Lookup(data, "username"), "Someone"))
    {
      typingUser := Some(OrElse(Lookup(data, "username"), "Someone"));
    }

    /** `stop_display_typing`: nobody is typing. */
    method StopDisplayTyping()
      modifies this`typingUser
      ensures typingUser == None
    {
      typingUser := None;
    }

    /** `handleInputString`: the input follows the field, `typing` is emitted, and
        the typing timer is (re)started, so only the latest keystroke's timer is
        pending. */
    method HandleInput(value: string)
      modifies this`input, this`outbox, this`timerArmed
      ensures input == value && timerArmed
      ensures outbox == old(outbox) + [Typing(map["username" := currentUser])]
    {
      input := value;
      outbox := outbox + [Typing(map["username" := currentUser])];
      timerArmed := true;
    }

    /** The typing timer running out: `stop_typing` is emitted once, and a timer
        that has already fired (or was never started) does nothing. */
    method TypingTimerFires()
      modifies this`outbox, this`timerArmed
      ensures !timerArmed
      ensures outbox == old(outbox) + (if old(timerArmed) then [StopTyping] else [])
    {
      if timerArmed {
        outbox := outbox + [StopTyping];
        timerArmed := false;
      }
    }

    /** `handleSendMessage`: a blank input (only white space) emits nothing and is
        kept; otherwise the input is sent untrimmed, then `stop_typing` is emitted,
        then the input is cleared. */
    method HandleSendMessage()
      modifies this`input, this`outbox
      ensures JsString.Trim(old(input)) == "" ==> input == old(input) && outbox == old(outbox)
      ensures JsString.Trim(old(input)) != "" ==>
        && input == ""
        && outbox == old(outbox) + [SendMessage(map["text" := old(input), "username" := currentUser]), StopTyping]
    {
      if JsString.Trim(input) == "" {
        return;
      }
      outbox := outbox + [SendMessage(map["text" := input, "username" := currentUser])];
      outbox := outbox + [StopTyping];
      input := "";
    }
  }
}
