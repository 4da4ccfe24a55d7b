/** The chat server: the shared registry of connected users and the
    per-connection handler that validates a join, routes each inbound
    line and cleans up. Every handler step is atomic over the registry and
    returns, in order, the frames it sends and to which connection. */
module Server {
  import opened Protocol
  import opened Text

  /** A client connection, identified opaquely. */
  type ConnId = nat

  /** One `send_json` call: the connection written to and the frame. */
  datatype Send = Send(to: ConnId, frame: Frame)

  /** How the message loop goes on after a line: with the next line, by
      `break` on "/quit", or by an exception (a missing dictionary key)
      that the handler swallows before its cleanup. */
  datatype Step = Continue | Quit | Crash

  /** What an inbound line asks for. */
  datatype Command =
    | Skip
    | QuitChat
    | BadDirect
    | Direct(target: string, text: string)
    | Say(text: string)

  predicate Distinct(s: seq<string>)
  {
    forall i, j :: 0 <= i < j < |s| ==> s[i] != s[j]
  }

  /** Interpret one inbound line: strip it; a blank line is skipped;
      "/quit" ends the chat; a line starting with "@" is a direct message
      to the word after the "@", carrying the rest of the line, unless
      there is no rest; anything else is said to everyone. */
  function ParseLine(raw: string): (c: Command)
    ensures c.Skip? <==> AllSpace(Python, raw)
    ensures c.QuitChat? <==> QuitsChat(raw)
    ensures c.BadDirect? <==>
      var m := Trim(Python, raw); m != [] && m[0] == '@' && NoSpace(Python, m)
    ensures c.Direct? <==>
      var m := Trim(Python, raw); m != [] && m[0] == '@' && !NoSpace(Python, m)
    ensures c.Direct? ==> NoSpace(Python, c.target) && c.text != [] && Trimmed(Python, c.text)
    ensures c.Say? <==>
      var m := Trim(Python, raw); m != [] && m != QuitCommand && m[0] != '@'
    ensures c.Say? ==> c.text == Trim(Python, raw)
  {
    var msg := Trim(Python, raw);
    if msg == "" then Skip
    else if msg == QuitCommand then QuitChat
    else if msg[0] == '@' then
      DirectParts(msg);
      var parts := SplitOnce(msg);
      if |parts| < 2 then BadDirect
      else Direct(parts[0][1..], parts[1])
    else Say(msg)
  }

  /** Proof step for `ParseLine`: how a stripped non-empty line splits. It
      has one part exactly when it has no whitespace; a second part is
      itself stripped, and the first part has no whitespace after its
      first character either. */
  lemma DirectParts(msg: string)
    requires msg != [] && Trimmed(Python, msg)
    ensures 1 <= |SplitOnce(msg)| <= 2
    ensures |SplitOnce(msg)| < 2 <==> NoSpace(Python, msg)
    ensures |SplitOnce(msg)| == 2 ==> SplitOnce(msg)[1] != [] && Trimmed(Python, SplitOnce(msg)[1])
    ensures NoSpace(Python, SplitOnce(msg)[0][1..])
  {
    assert SplitOnce(msg) == SplitWord(msg) by {
      assert TrimStart(Python, msg) == msg;
    }
    SplitWordOfTrimmed(msg);
    NoSpaceTail(Python, SplitOnce(msg)[0]);
  }

  /** The line strips to "/quit", which ends the message loop. */
  predicate QuitsChat(raw: string)
  {
    Trim(Python, raw) == QuitCommand
  }

  /** How many of `xs` a loop reads when it stops right after the first
      element satisfying `stop`, or at the end. */
  function TakenUntil<T>(xs: seq<T>, stop: T -> bool): (n: nat)
    ensures n <= |xs|
  {
    if xs == [] then 0
    else if stop(xs[0]) then 1
    else 1 + TakenUntil(xs[1..], stop)
  }

  /** Reading on from element `i`: that element, and the rest unless it
      stops the loop. */
  lemma TakenUntilFrom<T>(xs: seq<T>, stop: T -> bool, i: nat)
    requires i < |xs|
    ensures TakenUntil(xs[i..], stop) ==
      if stop(xs[i]) then 1 else 1 + TakenUntil(xs[i + 1..], stop)
  {
    assert xs[i..][1..] == xs[i + 1..];
  }

  /** The last element read stops the loop, unless every element was read. */
  lemma {:induction false} TakenUntilEndsAtStop<T>(xs: seq<T>, stop: T -> bool)
    ensures var n := TakenUntil(xs, stop); n == |xs| || (0 < n && stop(xs[n - 1]))
  {
    if xs != [] && !stop(xs[0]) {
      var tail := xs[1..];
      TakenUntilEndsAtStop(tail, stop);
      var n := TakenUntil(tail, stop);
      if n < |tail| {
        assert tail[n - 1] == xs[n];
      }
    }
  }

  /** No element before the last one read stops the loop. */
  lemma {:induction false} TakenUntilSkipsNoStop<T>(xs: seq<T>, stop: T -> bool, k: nat)
    requires k + 1 < TakenUntil(xs, stop)
    ensures !stop(xs[k])
  {
    if k > 0 {
      var tail := xs[1..];
      TakenUntilSkipsNoStop(tail, stop, k - 1);
      assert xs[k] == tail[k - 1];
    }
  }

  /** The loop stops right after the first element satisfying `stop`, and
      only there, or after the last element. */
  lemma TakenUntilStopsAtFirst<T>(xs: seq<T>, stop: T -> bool)
    ensures var n := TakenUntil(xs, stop);
      && (n == |xs| || (0 < n && stop(xs[n - 1])))
      && forall k :: 0 <= k < n - 1 ==> !stop(xs[k])
  {
    TakenUntilEndsAtStop(xs, stop);
    forall k | 0 <= k < TakenUntil(xs, stop) - 1
      ensures !stop(xs[k])
    {
      TakenUntilSkipsNoStop(xs, stop, k);
    }
  }

  /** The client's direct-message convention round-trips: a line made of
      "@", a name without whitespace, a whitespace gap and a stripped
      message, padded with whitespace on either side, is parsed back into
      that name and message. */
  lemma DirectRoundTrip(pad: string, target: string, gap: string, text: string, tail: string)
    requires AllSpace(Python, pad) && AllSpace(Python, tail)
    requires NoSpace(Python, target)
    requires gap != [] && AllSpace(Python, gap)
    requires text != [] && Trimmed(Python, text)
    ensures ParseLine(pad + "@" + target + gap + text + tail) == Direct(target, text)
  {
    var word := "@" + target;
    var m := word + gap + text;
    assert NoSpace(Python, word) by {
      forall k | 0 <= k < |word| ensures !IsSpace(Python, word[k]) {
        if k > 0 { assert word[k] == target[k - 1]; }
      }
    }
    assert Trimmed(Python, m) by {
      assert m[0] == '@';
      assert m[|m| - 1] == text[|text| - 1];
    }
    assert pad + "@" + target + gap + text + tail == pad + m + tail;
    TrimPadded(Python, pad, m, tail);
    assert m != QuitCommand by { assert m[0] != QuitCommand[0]; }
    SplitOnceWord(word, gap, text);
    assert word[1..] == target;
  }

  /** The last element of a list without repeats occurs nowhere before. */
  lemma LastNotInPrefix(order: seq<string>)
    requires Distinct(order) && order != []
    ensures Distinct(order[..|order| - 1])
    ensures order[|order| - 1] !in order[..|order| - 1]
  {
    var n := |order| - 1;
    forall j | 0 <= j < n ensures order[..n][j] != order[n] {
      assert order[j] != order[n];
    }
  }

  /** Appending a new element keeps a list free of repeats. */
  lemma DistinctSnoc(s: seq<string>, x: string)
    requires Distinct(s) && x !in s
    ensures Distinct(s + [x])
  {
    forall i, j | 0 <= i < j < |s| + 1 ensures (s + [x])[i] != (s + [x])[j] {
      if j == |s| {
        assert (s + [x])[i] == s[i];
      }
    }
  }

  /** The names of `order`, in order, except `exclude`. */
  function Except(order: seq<string>, exclude: Option<string>): (r: seq<string>)
    ensures |r| <= |order|
  {
    if order == [] then []
    else
      var n := |order| - 1;
      var init := Except(order[..n], exclude);
      if Some(order[n]) != exclude then init + [order[n]] else init
  }

  /** A name is kept exactly when it is listed and not excluded. */
  lemma {:induction false} ExceptMembers(order: seq<string>, exclude: Option<string>)
    ensures forall u :: u in Except(order, exclude) <==> u in order && Some(u) != exclude
  {
    if order != [] {
      var n := |order| - 1;
      assert order == order[..n] + [order[n]];
      ExceptMembers(order[..n], exclude);
      ExceptSnoc(order[..n], order[n], exclude);
    }
  }

  /** Excluding keeps a list free of repeats. */
  lemma {:induction false} ExceptDistinct(order: seq<string>, exclude: Option<string>)
    requires Distinct(order)
    ensures Distinct(Except(order, exclude))
  {
    if order != [] {
      var n := |order| - 1;
      var init := order[..n];
      var last := order[n];
      assert order == init + [last];
      LastNotInPrefix(order);
      ExceptDistinct(init, exclude);
      ExceptSnoc(init, last, exclude);
      if Some(last) != exclude {
        ExceptMembers(init, exclude);
        DistinctSnoc(Except(init, exclude), last);
      }
    }
  }

  /** Excluding from a list with one more name at its end. */
  lemma ExceptSnoc(init: seq<string>, last: string, exclude: Option<string>)
    ensures Except(init + [last], exclude) ==
      if Some(last) != exclude then Except(init, exclude) + [last] else Except(init, exclude)
  {
    var s := init + [last];
    assert s[..|s| - 1] == init;
  }

  /** In a list without repeats, every name other than `exclude` is kept
      exactly once and `exclude` not at all. */
  lemma {:induction false} ExceptOnce(order: seq<string>, exclude: Option<string>, u: string)
    requires Distinct(order)
    ensures multiset(Except(order, exclude))[u] == if u in order && Some(u) != exclude then 1 else 0
  {
    if order != [] {
      var n := |order| - 1;
      var init := order[..n];
      var last := order[n];
      assert order == init + [last];
      LastNotInPrefix(order);
      ExceptOnce(init, exclude, u);
      ExceptSnoc(init, last, exclude);
      var r := Except(init, exclude);
      if Some(last) != exclude {
        assert multiset(r + [last]) == multiset(r) + multiset{last};
      }
    }
  }

  /** Excluding a name that is not in the list keeps the list. */
  lemma {:induction false} ExceptAbsent(order: seq<string>, exclude: Option<string>)
    requires exclude.None? || exclude.value !in order
    ensures Except(order, exclude) == order
  {
    if order != [] {
      ExceptAbsent(order[..|order| - 1], exclude);
      assert order == order[..|order| - 1] + [order[|order| - 1]];
    }
  }

  /** `data` sent to each of `names` in turn, through `conns`. */
  function SendAll(conns: map<string, ConnId>, names: seq<string>, data: Frame): (r: seq<Send>)
    requires forall u :: u in names ==> u in conns
    ensures |r| == |names|
    ensures forall i :: 0 <= i < |names| ==> r[i] == Send(conns[names[i]], data)
  {
    if names == [] then []
    else
      var n := |names| - 1;
      SendAll(conns, names[..n], data) + [Send(conns[names[n]], data)]
  }

  /** Sends that go, one by one, to each of `names` are `SendAll`. */
  lemma SendAllOf(conns: map<string, ConnId>, names: seq<string>, data: Frame, sends: seq<Send>)
    requires forall u :: u in names ==> u in conns
    requires |sends| == |names|
    requires forall i :: 0 <= i < |names| ==> sends[i] == Send(conns[names[i]], data)
    ensures sends == SendAll(conns, names, data)
  {
  }

  /** Sends addressed through the registry with a newcomer in it, to names
      registered before the newcomer, are `SendAll` of the earlier registry. */
  lemma SendAllBeforeJoin(registered: map<string, ConnId>, name: string, ws: ConnId,
                          before: seq<string>, data: Frame, sends: seq<Send>)
    requires forall u :: u in before ==> u in registered
    requires name !in before
    requires |sends| == |before|
    requires forall i :: 0 <= i < |before| ==> sends[i] == Send(registered[name := ws][before[i]], data)
    ensures sends == SendAll(registered, before, data)
  {
    forall i | 0 <= i < |before| ensures sends[i] == Send(registered[before[i]], data) {
      assert before[i] in before;
    }
    SendAllOf(registered, before, data, sends);
  }

  /** What the message loop reads of the shared state: `clients`, their
      iteration order and `user_colors`. */
  datatype Registry = Registry(clients: map<string, ConnId>, order: seq<string>, colors: map<string, string>)

  /** Every name in the iteration order is registered. */
  predicate Listed(r: Registry)
  {
    forall u :: u in r.order ==> u in r.clients
  }

  /** The frames one parsed line of the user `username` on `ws` sends
      against the registry `r`, up to a KeyError if one is raised. */
  function RouteSends(r: Registry, ws: ConnId, username: string, cmd: Command, time: string): seq<Send>
    requires Listed(r)
  {
    match cmd
    case Skip => []
    case QuitChat => []
    case BadDirect => [Send(ws, ErrorFrame(UsageText))]
    case Direct(target, text) =>
      if target !in r.clients then
        if username in r.clients then [Send(r.clients[username], ErrorFrame(NotFoundText(target)))] else []
      else
        [Send(r.clients[target], DmFromFrame(username, text))]
        + if username in r.clients then [Send(r.clients[username], DmToFrame(target, text))] else []
    case Say(text) =>
      if username in r.colors then SendAll(r.clients, r.order, ChatFrame(username, r.colors[username], time, text))
      else []
  }

  /** The frames the message loop sends for the first `n` of `lines`, the
      i-th stamped `times[i]`, each parsed and routed against `r`. */
  function LoopSends(r: Registry, ws: ConnId, name: string, lines: seq<string>, times: seq<string>, n: nat): seq<Send>
    requires Listed(r) && n <= |lines| && |times| == |lines|
  {
    if n == 0 then []
    else LoopSends(r, ws, name, lines, times, n - 1) + RouteSends(r, ws, name, ParseLine(lines[n - 1]), times[n - 1])
  }

  /** The greeting followed by the one refusal frame. */
  lemma GreetThenRefuse(greet: Send, refusal: seq<Send>)
    requires |refusal| == 1
    ensures [greet] + refusal == [greet, refusal[0]]
  {
  }

  /** Regrouping the greeting and the join confirmation in front of the rest. */
  lemma GreetThenJoin(greet: Send, joined: Send, notices: seq<Send>, talk: seq<Send>, leave: seq<Send>)
    ensures [greet] + ([joined] + notices) + (talk + leave) == [greet, joined] + notices + talk + leave
  {
    assert [greet] + ([joined] + notices) == [greet, joined] + notices;
  }

  /** Removing a key just added gives back the map without it. */
  lemma RemoveAdded(m: map<string, ConnId>, k: string, v: ConnId)
    ensures m[k := v] - {k} == m - {k}
  {
  }

  /** Removing a missing key changes nothing. */
  lemma RemoveAbsent(m: map<string, ConnId>, k: string)
    requires k !in m
    ensures m - {k} == m
  {
  }

  class Room {
    /** `clients`: name to connection. */
    var clients: map<string, ConnId>
    /** The names of `clients` in insertion order, the order in which
        Python's dict iterates them. */
    var order: seq<string>
    /** `user_colors`: name to colour; entries are never removed. */
    var userColors: map<string, string>

    /** The registry's invariant: `order` lists the keys of `clients` once
        each; every connected user has a colour from the palette; every
        registered name is non-empty and stripped. */
    ghost predicate Valid()
      reads this
    {
      && Distinct(order)
      && (forall u :: u in order <==> u in clients)
      && clients.Keys <= userColors.Keys
      && (forall u :: u in userColors ==> userColors[u] in Palette)
      && (forall u :: u in clients ==> u != "" && Trimmed(Python, u))
    }

    /** The empty registry the server starts with. */
    constructor ()
      ensures Valid()
      ensures clients == map[] && order == [] && userColors == map[]
    {
      clients := map[];
      order := [];
      userColors := map[];
    }

    /** The registry as it stands. */
    ghost function Snapshot(): Registry
      reads this
    {
      Registry(clients, order, userColors)
    }

    /** Every send goes to the connection `ws` or to a registered one. */
    ghost predicate Delivered(sends: seq<Send>, ws: ConnId)
      reads this
    {
      forall k :: 0 <= k < |sends| ==> sends[k].to == ws || sends[k].to in clients.Values
    }

    /** Frames delivered to known connections stay so when put together. */
    lemma DeliveredAppend(a: seq<Send>, b: seq<Send>, ws: ConnId)
      requires Delivered(a, ws) && Delivered(b, ws)
      ensures Delivered(a + b, ws)
    {
      assert forall k :: 0 <= k < |b| ==> (a + b)[|a| + k] == b[k];
    }

    /** `sends` is `data` sent to each of the registered `names`, in order. */
    ghost predicate Addressed(sends: seq<Send>, names: seq<string>, data: Frame)
      reads this
    {
      && |sends| == |names|
      && forall k :: 0 <= k < |names| ==> names[k] in clients && sends[k] == Send(clients[names[k]], data)
    }

    /** Sending to one more registered user extends an addressed sequence. */
    lemma AddressedSnoc(sends: seq<Send>, names: seq<string>, user: string, data: Frame)
      requires Addressed(sends, names, data) && user in clients
      ensures Addressed(sends + [Send(clients[user], data)], names + [user], data)
    {
      var next := Send(clients[user], data);
      assert forall k :: 0 <= k < |names| ==> (sends + [next])[k] == sends[k] && (names + [user])[k] == names[k];
    }

    /** `broadcast(data, exclude)`: one send of `data` to each registered
        user except `exclude`, in registration order. */
    method Broadcast(data: Frame, exclude: Option<string>) returns (sends: seq<Send>)
      requires forall u :: u in order ==> u in clients
      ensures var names := Except(order, exclude);
        && |sends| == |names|
        && forall i :: 0 <= i < |names| ==> names[i] in clients && sends[i] == Send(clients[names[i]], data)
    {
      sends := [];
      ghost var names: seq<string> := [];
      var i := 0;
      while i < |order|
        invariant 0 <= i <= |order|
        invariant names == Except(order[..i], exclude)
        invariant Addressed(sends, names, data)
      {
        var user := order[i];
        assert user in clients;
        assert order[..i + 1] == order[..i] + [user];
        ExceptSnoc(order[..i], user, exclude);
        if Some(user) != exclude {
          AddressedSnoc(sends, names, user, data);
          sends := sends + [Send(clients[user], data)];
          names := names + [user];
        }
        i := i + 1;
      }
      assert order[..i] == order;
    }

    /** `send_dm`: a known recipient gets the message with `from`, then the
        sender gets the echo with `to`; an unknown recipient is reported to
        the sender only. `ok` is false when the sender is no longer
        registered, where Python raises a KeyError after the sends so far. */
    method SendDirect(sender: string, recipient: string, message: string)
      returns (ok: bool, sends: seq<Send>)
      ensures ok <==> sender in clients
      ensures recipient in clients && sender in clients ==>
        sends == [Send(clients[recipient], DmFromFrame(sender, message)),
                  Send(clients[sender], DmToFrame(recipient, message))]
      ensures recipient in clients && sender !in clients ==>
        sends == [Send(clients[recipient], DmFromFrame(sender, message))]
      ensures recipient !in clients && sender in clients ==>
        sends == [Send(clients[sender], ErrorFrame(NotFoundText(recipient)))]
      ensures recipient !in clients && sender !in clients ==> sends == []
      ensures forall k :: 0 <= k < |sends| ==> sends[k].to in clients.Values
    {
      if recipient !in clients {
        if sender !in clients {
          return false, [];
        }
        assert clients[sender] in clients.Values;
        return true, [Send(clients[sender], ErrorFrame(NotFoundText(recipient)))];
      }
      assert clients[recipient] in clients.Values;
      sends := [Send(clients[recipient], DmFromFrame(sender, message))];
      if sender !in clients {
        return false, sends;
      }
      assert clients[sender] in clients.Values;
      sends := sends + [Send(clients[sender], DmToFrame(recipient, message))];
      ok := true;
    }

    /** One pass of the message loop for the connection `ws` of the user
        `username`, with `time` the clock reading a chat line would carry:
        the line is parsed and routed. The registry is only read. */
    method HandleLine(ws: ConnId, username: string, raw: string, time: string)
      returns (step: Step, sends: seq<Send>)
      requires Valid()
      ensures ParseLine(raw).Skip? ==> step == Continue && sends == []
      ensures ParseLine(raw).QuitChat? ==> step == Quit && sends == []
      ensures ParseLine(raw).BadDirect? ==>
        step == Continue && sends == [Send(ws, ErrorFrame(UsageText))]
      ensures ParseLine(raw).Direct? ==>
        var t, x := ParseLine(raw).target, ParseLine(raw).text;
        && (step == Continue <==> username in clients)
        && (step != Continue ==> step == Crash)
        && (username in clients && t in clients ==>
              sends == [Send(clients[t], DmFromFrame(username, x)),
                        Send(clients[username], DmToFrame(t, x))])
        && (username in clients && t !in clients ==>
              sends == [Send(clients[username], ErrorFrame(NotFoundText(t)))])
        && (username !in clients ==>
              sends == if t in clients then [Send(clients[t], DmFromFrame(username, x))] else [])
      ensures ParseLine(raw).Say? && username !in userColors ==> step == Crash && sends == []
      ensures ParseLine(raw).Say? && username in userColors ==>
        var chat := ChatFrame(username, userColors[username], time, ParseLine(raw).text);
        && step == Continue
        && |sends| == |order|
        && forall i :: 0 <= i < |order| ==> sends[i] == Send(clients[order[i]], chat)
      ensures Delivered(sends, ws)
      ensures username in clients ==> step != Crash && (step == Quit <==> QuitsChat(raw))
      ensures sends == RouteSends(Snapshot(), ws, username, ParseLine(raw), time)
    {
      step, sends := Route(ws, username, ParseLine(raw), time);
    }

    /** What the message loop does with a parsed line. */
    method Route(ws: ConnId, username: string, cmd: Command, time: string)
      returns (step: Step, sends: seq<Send>)
      requires Valid()
      ensures cmd.Skip? ==> step == Continue && sends == []
      ensures cmd.QuitChat? ==> step == Quit && sends == []
      ensures cmd.BadDirect? ==> step == Continue && sends == [Send(ws, ErrorFrame(UsageText))]
      ensures cmd.Direct? ==>
        && (step == Continue <==> username in clients)
        && (step != Continue ==> step == Crash)
        && (username in clients && cmd.target in clients ==>
              sends == [Send(clients[cmd.target], DmFromFrame(username, cmd.text)),
                        Send(clients[username], DmToFrame(cmd.target, cmd.text))])
        && (username in clients && cmd.target !in clients ==>
              sends == [Send(clients[username], ErrorFrame(NotFoundText(cmd.target)))])
        && (username !in clients ==>
              sends == if cmd.target in clients then [Send(clients[cmd.target], DmFromFrame(username, cmd.text))] else [])
      ensures cmd.Say? && username !in userColors ==> step == Crash && sends == []
      ensures cmd.Say? && username in userColors ==>
        var chat := ChatFrame(username, userColors[username], time, cmd.text);
        && step == Continue
        && |sends| == |order|
        && forall i :: 0 <= i < |order| ==> sends[i] == Send(clients[order[i]], chat)
      ensures Delivered(sends, ws)
      ensures username in clients ==> step != Crash && (step == Quit <==> cmd.QuitChat?)
      ensures sends == RouteSends(Snapshot(), ws, username, cmd, time)
    {
      match cmd
      case Skip =>
        step, sends := Continue, [];
      case QuitChat =>
        step, sends := Quit, [];
      case BadDirect =>
        step, sends := Continue, [Send(ws, ErrorFrame(UsageText))];
      case Direct(target, text) =>
        var ok;
        ok, sends := SendDirect(username, target, text);
        step := if ok then Continue else Crash;
      case Say(text) =>
        if username !in userColors {
          return Crash, [];
        }
        var chat := ChatFrame(username, userColors[username], time, text);
        sends := Broadcast(chat, None);
        ExceptAbsent(order, None);
        SendAllOf(clients, order, chat, sends);
        step := Continue;
        assert Delivered(sends, ws) by {
          forall k | 0 <= k < |sends| ensures sends[k].to in clients.Values {
            assert order[k] in clients;
          }
        }
    }

    /** The join step: the received name is stripped; an empty or taken
        name gets an error and is not registered; otherwise the name is
        registered with `color`, the joiner is told "joined as <name>" and
        every other user is told "<name> joined the chat". */
    method Join(ws: ConnId, data: string, color: string) returns (name: string, joined: bool, sends: seq<Send>)
      requires Valid()
      requires color in Palette
      modifies this
      ensures Valid()
      ensures name == Trim(Python, data)
      ensures joined <==> name != "" && name !in old(clients)
      ensures !joined ==>
        && sends == [Send(ws, ErrorFrame(BadNameText))]
        && clients == old(clients) && order == old(order) && userColors == old(userColors)
      ensures joined ==>
        && clients == old(clients)[name := ws]
        && order == old(order) + [name]
        && userColors == old(userColors)[name := color]
        && sends == [Send(ws, InfoFrame(JoinedAsText(name)))]
                    + SendAll(old(clients), old(order), NoticeFrame(JoinedChatText(name)))
    {
      name := Trim(Python, data);
      if name == "" || name in clients {
        return name, false, [Send(ws, ErrorFrame(BadNameText))];
      }
      ghost var before := order;
      ghost var registered := clients;
      Register(name, ws, color);
      joined := true;
      assert Except(order, Some(name)) == before by {
        ExceptSnoc(before, name, Some(name));
        ExceptAbsent(before, Some(name));
      }
      var notice := NoticeFrame(JoinedChatText(name));
      var notices := Broadcast(notice, Some(name));
      SendAllBeforeJoin(registered, name, ws, before, notice, notices);
      sends := [Send(ws, InfoFrame(JoinedAsText(name)))] + notices;
    }

    /** `clients[name] = ws` and `user_colors[name] = color` for a new,
        non-empty, stripped name. */
    method Register(name: string, ws: ConnId, color: string)
      requires Valid()
      requires name != "" && Trimmed(Python, name) && name !in clients
      requires color in Palette
      modifies this
      ensures Valid()
      ensures clients == old(clients)[name := ws]
      ensures order == old(order) + [name]
      ensures userColors == old(userColors)[name := color]
    {
      DistinctSnoc(order, name);
      clients := clients[name := ws];
      order := order + [name];
      userColors := userColors[name := color];
    }

    /** The cleanup in `finally`: if `name` is registered, whoever holds
        it is removed and everyone left is told "<name> left the chat".
        Colours are kept. */
    method Cleanup(name: string) returns (sends: seq<Send>)
      requires Valid()
      modifies this
      ensures Valid()
      ensures userColors == old(userColors)
      ensures name in old(clients) ==>
        && clients == old(clients) - {name}
        && order == Except(old(order), Some(name))
        && |sends| == |order|
        && forall i :: 0 <= i < |order| ==> sends[i] == Send(clients[order[i]], NoticeFrame(LeftChatText(name)))
      ensures name in old(clients) ==> sends == SendAll(clients, order, NoticeFrame(LeftChatText(name)))
      ensures name !in old(clients) ==>
        clients == old(clients) && order == old(order) && sends == []
    {
      if name != "" && name in clients {
        var remaining := clients - {name};
        var rest := Except(order, Some(name));
        ExceptMembers(order, Some(name));
        ExceptDistinct(order, Some(name));
        assert forall u :: u in rest <==> u in remaining;
        clients := remaining;
        order := rest;
        assert Valid();
        sends := Broadcast(NoticeFrame(LeftChatText(name)), None);
        ExceptAbsent(order, None);
        SendAllOf(clients, order, NoticeFrame(LeftChatText(name)), sends);
      } else {
        sends := [];
      }
    }

    /** The message loop `async for msg in ws` of the registered user
        `name`: each of `lines` in turn, the i-th chat line stamped
        `times[i]`. It reads all of them, or up to and including the first
        that strips to "/quit" (`TakenUntilStopsAtFirst`), since a
        registered user never meets a missing key; it sends what those
        lines send, in order, and every frame goes to `ws` or to a
        registered user. */
    method MessageLoop(ws: ConnId, name: string, lines: seq<string>, times: seq<string>)
      returns (sends: seq<Send>, read: nat)
      requires Valid()
      requires name in clients
      requires |times| == |lines|
      ensures read == TakenUntil(lines, QuitsChat)
      ensures sends == LoopSends(Snapshot(), ws, name, lines, times, read)
      ensures Delivered(sends, ws)
    {
      sends := [];
      read := 0;
      while read < |lines|
        invariant read <= |lines|
        invariant TakenUntil(lines, QuitsChat) == read + TakenUntil(lines[read..], QuitsChat)
        invariant sends == LoopSends(Snapshot(), ws, name, lines, times, read)
        invariant Delivered(sends, ws)
      {
        var step, out := HandleLine(ws, name, lines[read], times[read]);
        TakenUntilFrom(lines, QuitsChat, read);
        DeliveredAppend(sends, out, ws);
        sends := sends + out;
        read := read + 1;
        if step != Continue {
          break;
        }
      }
    }

    /** The joined half of `handle_client`: the message loop, then the cleanup its `finally` runs. */
    method Converse(ws: ConnId, name: string, lines: seq<string>, times: seq<string>)
      returns (sends: seq<Send>)
      requires Valid()
      requires name in clients
      requires |times| == |lines|
      modifies this
      ensures Valid()
      ensures clients == old(clients) - {name}
      ensures order == Except(old(order), Some(name))
      ensures userColors == old(userColors)
      ensures sends == LoopSends(old(Snapshot()), ws, name, lines, times, TakenUntil(lines, QuitsChat))
                       + SendAll(clients, order, NoticeFrame(LeftChatText(name)))
    {
      var talk, _ := MessageLoop(ws, name, lines, times);
      var leave := Cleanup(name);
      sends := talk + leave;
    }

    /** A whole `handle_client` run for the connection `ws`, with no other
        connection acting meanwhile: greet, read the name `data`, join with
        `color`, handle `lines` (a chat line at index i carries `times[i]`)
        until one ends the loop, then clean up. Afterwards the name is
        registered to nobody, even when the join was refused because the
        name was taken: the cleanup then evicts its earlier holder. */
    method HandleClient(ws: ConnId, data: string, color: string, lines: seq<string>, times: seq<string>)
      returns (sends: seq<Send>)
      requires Valid()
      requires color in Palette
      requires |times| == |lines|
      modifies this
      ensures Valid()
      ensures clients == old(clients) - {Trim(Python, data)}
      ensures order == Except(old(order), Some(Trim(Python, data)))
      ensures var name := Trim(Python, data);
        userColors == if name != "" && name !in old(clients) then old(userColors)[name := color] else old(userColors)
      ensures var name := Trim(Python, data);
        name == "" ==> sends == [Send(ws, InfoFrame(GreetingText)), Send(ws, ErrorFrame(BadNameText))]
      ensures var name := Trim(Python, data);
        name in old(clients) ==>
          sends == [Send(ws, InfoFrame(GreetingText)), Send(ws, ErrorFrame(BadNameText))]
                   + SendAll(clients, order, NoticeFrame(LeftChatText(name)))
      ensures var name := Trim(Python, data);
        name != "" && name !in old(clients) ==>
          var during := Registry(old(clients)[name := ws], old(order) + [name], old(userColors)[name := color]);
          sends == [Send(ws, InfoFrame(GreetingText)), Send(ws, InfoFrame(JoinedAsText(name)))]
                   + SendAll(old(clients), old(order), NoticeFrame(JoinedChatText(name)))
                   + LoopSends(during, ws, name, lines, times, TakenUntil(lines, QuitsChat))
                   + SendAll(clients, order, NoticeFrame(LeftChatText(name)))
    {
      var greet := Send(ws, InfoFrame(GreetingText));
      var name, joined, out := Join(ws, data, color);
      var leave;
      if joined {
        ghost var during := Registry(old(clients)[name := ws], old(order) + [name], old(userColors)[name := color]);
        assert Snapshot() == during;
        var rest := Converse(ws, name, lines, times);
        RemoveAdded(old(clients), name, ws);
        ExceptSnoc(old(order), name, Some(name));
        ghost var notices := SendAll(old(clients), old(order), NoticeFrame(JoinedChatText(name)));
        ghost var talk := LoopSends(during, ws, name, lines, times, TakenUntil(lines, QuitsChat));
        assert out == [Send(ws, InfoFrame(JoinedAsText(name)))] + notices;
        assert rest == talk + SendAll(clients, order, NoticeFrame(LeftChatText(name)));
        sends := [greet] + out + rest;
        GreetThenJoin(greet, Send(ws, InfoFrame(JoinedAsText(name))), notices, talk, SendAll(clients, order, NoticeFrame(LeftChatText(name))));
      } else if name == "" {
        assert "" !in old(clients) && "" !in old(order);
        ExceptAbsent(old(order), Some(name));
        RemoveAbsent(old(clients), name);
        leave := Cleanup(name);
        GreetThenRefuse(greet, out);
        sends := [greet] + out + leave;
      } else {
        leave := Cleanup(name);
        GreetThenRefuse(greet, out);
        sends := [greet] + out + leave;
      }
    }
  }
}
