/** How the frames the server sends look once the browser session has
    them: which of them ask for the input to be focused, how direct
    messages render on each side, and what the handshake's two different
    trims mean for recognising one's own messages. */
module Interop {
  import opened Protocol
  import opened Text
  import opened Render
  import opened Client

  /** The server's join confirmation always triggers the focus hint. */
  lemma JoinConfirmationRequestsFocus(name: string)
    ensures FocusHint(InfoFrame(JoinedAsText(name)))
  {
    var s := JoinedAsText(name);
    var p := "joined as";
    assert MatchesAt(s, p, 0) by {
      forall k | 0 <= k < |p| ensures Lower(s[k]) == Lower(p[k]) {
        assert s[k] == p[k];
      }
    }
  }

  /** The greeting sent before the name is read does not: it contains no
      "j" in either case. */
  lemma GreetingRequestsNoFocus()
    ensures !FocusHint(InfoFrame(GreetingText))
  {
    var s := GreetingText;
    forall i | 0 <= i < |s| ensures Lower(s[i]) != 'j' {
      assert s[i] in "enter youusam";
    }
    NoFirstLetterNoMatch(s, "joined as");
  }

  /** A text none of whose letters matches the pattern's first one does
      not contain the pattern. */
  lemma NoFirstLetterNoMatch(s: string, p: string)
    requires p != []
    requires forall i :: 0 <= i < |s| ==> Lower(s[i]) != Lower(p[0])
    ensures !ContainsIgnoringCase(s, p)
  {
    forall i ensures !MatchesAt(s, p, i) {
      if 0 <= i < |s| {
        assert Lower(s[i + 0]) != Lower(p[0]);
      }
    }
  }

  /** A direct message renders as incoming "DM from <sender>" at its
      recipient, and its echo as outgoing "DM to <recipient>" at its
      sender, whoever is logged in locally. */
  lemma DirectMessageViews(sender: string, recipient: string, text: string,
                           username: string, selfColor: Option<string>)
    requires sender != ""
    ensures var v := Classify(DmFromFrame(sender, text), username, selfColor);
      v.DmRow? && v.incoming && v.title == "DM from " + sender && v.text == Some(text)
      && v.avatar == Avatar(Initials(Some(sender)), DmColor)
    ensures var v := Classify(DmToFrame(recipient, text), username, selfColor);
      v.DmRow? && !v.incoming && v.title == "DM to " + recipient && v.text == Some(text)
      && v.avatar == Avatar(Initials(Some(recipient)), DmColor)
  {
  }

  /** The name the server registers for a browser whose name field holds
      `username`: trimmed by JavaScript before the handshake, then
      stripped again by Python. */
  function RegisteredName(username: string): (r: string)
    ensures |r| <= |username|
    ensures Trimmed(Python, r) && Trim(Python, r) == r
    ensures AllSpace(JavaScript, username) ==> r == []
    ensures r == [] <==> AllSpace(Python, Trim(JavaScript, username))
  {
    var r := Trim(Python, Trim(JavaScript, username));
    TrimTrimmed(Python, r);
    r
  }

  /** A name typed with whitespace at either end is registered without it,
      while the session compares `from` with the untrimmed name: that user's
      own chat lines render as someone else's and never set `selfColor`. */
  lemma PaddedNameNeverSeesOwnChat(h: Handlers, current: Option<string>,
                                   color: string, time: string, text: string,
                                   selfColor: Option<string>)
    requires !Trimmed(JavaScript, h.name)
    ensures var own := ChatFrame(RegisteredName(h.name), color, time, text);
      && !Classify(own, h.name, selfColor).self
      && !IsOwnChat(h, own)
      && NextSelfColor(current, h, own) == current
  {
    TrimShrinks(JavaScript, h.name);
    assert |RegisteredName(h.name)| < |h.name|;
  }

  /** Without padding the two agree, and the user's chat lines render on
      the right. */
  lemma TrimmedNameSeesOwnChat(username: string, color: string, time: string, text: string,
                               selfColor: Option<string>)
    requires username != "" && Trimmed(JavaScript, username) && Trimmed(Python, username)
    ensures RegisteredName(username) == username
    ensures Classify(ChatFrame(RegisteredName(username), color, time, text), username, selfColor).self
  {
    TrimTrimmed(JavaScript, username);
    TrimTrimmed(Python, username);
  }

  /** The two runtimes disagree on what is blank: a name made of the
      information separators U+001C..U+001F passes the browser's check and
      is sent as it is, but the server strips it to nothing and refuses it. */
  lemma BrowserAcceptsServerRefuses(u: string)
    requires u != []
    requires forall k :: 0 <= k < |u| ==> '\U{1C}' <= u[k] <= '\U{1F}'
    ensures !AllSpace(JavaScript, u)
    ensures Trim(JavaScript, u) == u
    ensures RegisteredName(u) == ""
  {
    assert !IsSpace(JavaScript, u[0]);
    assert !IsSpace(JavaScript, u[|u| - 1]);
    TrimTrimmed(JavaScript, u);
    assert AllSpace(Python, u);
  }
}
