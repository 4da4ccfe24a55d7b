/** The browser session: the state of the `App` component and the
    handlers `connect` attaches to its WebSocket. React state setters are
    field assignments; a closure's captured values are an explicit
    `Handlers` record. */
module Client {
  import opened Protocol
  import opened Text

  /** A browser WebSocket, reduced to the text frames written to it. */
  class Socket {
    var sent: seq<string>

    constructor ()
      ensures sent == []
    {
      sent := [];
    }

    /** `ws.send(data)`: one raw text frame, exactly as given. */
    method Send(data: string)
      modifies this
      ensures sent == old(sent) + [data]
    {
      sent := sent + [data];
    }
  }

  /** What the handlers created by `connect` close over: the new socket and
      the `username` and `selfColor` values of the render in which
      `connect` ran. Later state changes do not reach them. */
  datatype Handlers = Handlers(ws: Socket, name: string, selfColorAtConnect: Option<string>)

  /** The notice the close handler makes up locally. */
  function DisconnectNotice(): Frame
  {
    NoticeFrame(DisconnectedText)
  }

  /** A chat frame whose `from` is the untrimmed name the handlers captured. */
  predicate IsOwnChat(h: Handlers, data: Frame)
  {
    data.kind == Some("chat") && data.from == Some(h.name)
  }

  /** The `selfColor` after the message handler sees `data`: taken from an
      own chat frame, but only while the captured `selfColor` is unset. */
  function NextSelfColor(current: Option<string>, h: Handlers, data: Frame): Option<string>
  {
    if IsOwnChat(h, data) && !Truthy(h.selfColorAtConnect) then data.color else current
  }

  /** The message handler asks for the input to be focused: an "info" frame
      whose text contains "joined as", in any letter case. */
  predicate FocusHint(data: Frame)
  {
    data.kind == Some("info") && data.text.Some? && ContainsIgnoringCase(data.text.value, "joined as")
  }

  /** `selfColor` after the message handler has seen `frames` in order. */
  function ColorAfter(current: Option<string>, h: Handlers, frames: seq<Frame>): Option<string>
  {
    if frames == [] then current
    else NextSelfColor(ColorAfter(current, h, frames[..|frames| - 1]), h, frames[|frames| - 1])
  }

  /** Once `selfColor` was set when `connect` ran, no frame changes it. */
  lemma {:induction false} CapturedColorFreezes(current: Option<string>, h: Handlers, frames: seq<Frame>)
    requires Truthy(h.selfColorAtConnect)
    ensures ColorAfter(current, h, frames) == current
  {
    if frames != [] {
      CapturedColorFreezes(current, h, frames[..|frames| - 1]);
    }
  }

  /** With no own chat frame among `frames`, `selfColor` does not move. */
  lemma {:induction false} NoOwnChatKeepsColor(current: Option<string>, h: Handlers, frames: seq<Frame>)
    requires forall j :: 0 <= j < |frames| ==> !IsOwnChat(h, frames[j])
    ensures ColorAfter(current, h, frames) == current
  {
    if frames != [] {
      NoOwnChatKeepsColor(current, h, frames[..|frames| - 1]);
    }
  }

  /** Because the handler reads the captured, not the live, `selfColor`,
      a session that connected without one takes the colour of the LAST
      own chat frame, not the first. */
  lemma {:induction false} LastOwnChatWins(current: Option<string>, h: Handlers, frames: seq<Frame>, k: nat)
    requires !Truthy(h.selfColorAtConnect)
    requires k < |frames| && IsOwnChat(h, frames[k])
    requires forall j :: k < j < |frames| ==> !IsOwnChat(h, frames[j])
    ensures ColorAfter(current, h, frames) == frames[k].color
  {
    var n := |frames| - 1;
    if k < n {
      LastOwnChatWins(current, h, frames[..n], k);
    }
  }

  class Session {
    var socket: Socket?
    var username: string
    var input: string
    var messages: seq<Frame>
    var selfColor: Option<string>

    /** The component's initial state. */
    constructor ()
      ensures socket == null && username == "" && input == ""
      ensures messages == [] && selfColor == None
    {
      socket := null;
      username := "";
      input := "";
      messages := [];
      selfColor := None;
    }

    /** The name field's change handler. */
    method EditUsername(value: string)
      modifies this
      ensures username == value
      ensures socket == old(socket) && input == old(input)
      ensures messages == old(messages) && selfColor == old(selfColor)
    {
      username := value;
    }

    /** The composer's change handler. */
    method EditInput(value: string)
      modifies this
      ensures input == value
      ensures socket == old(socket) && username == old(username)
      ensures messages == old(messages) && selfColor == old(selfColor)
    {
      input := value;
    }

    /** `connect`: a blank name (empty after JavaScript trimming) does
        nothing; otherwise a fresh socket becomes the session's socket at
        once, before it opens, with handlers that capture the current
        `username` and `selfColor`. */
    method Connect() returns (h: Option<Handlers>)
      modifies this
      ensures AllSpace(JavaScript, old(username)) ==> h == None && socket == old(socket)
      ensures !AllSpace(JavaScript, old(username)) ==>
        && h.Some?
        && fresh(h.value.ws) && h.value.ws.sent == []
        && socket == h.value.ws
        && h.value.name == username
        && h.value.selfColorAtConnect == selfColor
      ensures username == old(username) && input == old(input)
      ensures messages == old(messages) && selfColor == old(selfColor)
    {
      // `username.trim()` is empty exactly when the name is all whitespace.
      if AllSpace(JavaScript, username) {
        return None;
      }
      var ws := new Socket();
      h := Some(Handlers(ws, username, selfColor));
      socket := ws;
    }

    /** The open handler: the handshake is the trimmed captured name, sent
        as raw text, and it is the only frame this handler sends. */
    method OnOpen(h: Handlers)
      modifies h.ws
      ensures h.ws.sent == old(h.ws.sent) + [Trim(JavaScript, h.name)]
    {
      h.ws.Send(Trim(JavaScript, h.name));
    }

    /** The message handler: every decoded frame, whatever its type, goes
        at the end of the log; `selfColor` follows `NextSelfColor`; the
        result says whether a focus hint was requested. */
    method OnMessage(h: Handlers, data: Frame) returns (focus: bool)
      modifies this
      ensures messages == old(messages) + [data]
      ensures selfColor == NextSelfColor(old(selfColor), h, data)
      ensures focus == FocusHint(data)
      ensures socket == old(socket) && username == old(username) && input == old(input)
    {
      if data.kind == Some("chat") && data.from == Some(h.name) && !Truthy(h.selfColorAtConnect) {
        selfColor := data.color;
      }
      focus := data.kind == Some("info") && data.text.Some?
               && ContainsIgnoringCase(data.text.value, "joined as");
      messages := messages + [data];
    }

    /** The close handler: the session drops its socket (whichever socket it
        holds) and logs one locally made notice; nothing else changes. */
    method OnClose()
      modifies this
      ensures socket == null
      ensures messages == old(messages) + [DisconnectNotice()]
      ensures username == old(username) && input == old(input) && selfColor == old(selfColor)
    {
      socket := null;
      messages := messages + [DisconnectNotice()];
    }

    /** `sendMsg`: with a socket and an input that is not blank, the input
        is sent once, untrimmed, and the composer is cleared; otherwise
        nothing is sent and nothing changes. */
    method SendMsg()
      modifies this, socket
      ensures socket == old(socket)
      ensures old(socket) != null && !AllSpace(JavaScript, old(input)) ==>
        socket.sent == old(socket.sent) + [old(input)] && input == ""
      ensures old(socket) != null && AllSpace(JavaScript, old(input)) ==>
        socket.sent == old(socket.sent) && input == old(input)
      ensures old(socket) == null ==> input == old(input)
      ensures username == old(username) && messages == old(messages) && selfColor == old(selfColor)
    {
      // `input.trim()` is empty exactly when the input is all whitespace.
      if socket != null && !AllSpace(JavaScript, input) {
        socket.Send(input);
        input := "";
      }
    }
  }
}
