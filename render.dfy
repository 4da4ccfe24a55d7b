/** What the chat view draws for each entry of the message log, and the
    initials shown in an avatar. Pure functions of a frame and the
    session's current `username` and `selfColor`. */
module Render {
  import opened Protocol
  import opened Text

  datatype PillKind = NoticePill | InfoPill | ErrorPill

  /** An avatar: its initials and its background. */
  datatype Avatar = Avatar(initials: string, background: string)

  /** One rendered log entry. A chat row is drawn on the right when `self`;
      a direct-message row on the left when `incoming`. */
  datatype View =
    | ChatRow(self: bool, name: Option<string>, nameColor: Option<string>,
              time: Option<string>, text: Option<string>, avatar: Avatar)
    | Pill(pill: PillKind, text: Option<string>)
    | DmRow(incoming: bool, title: string, text: Option<string>, avatar: Avatar)
    | Hidden

  /** The avatar background used when no colour is known. */
  const AccentColor: string := "var(--accent)"

  /** The upper-cased first character of a piece, or nothing when the
      piece is empty (`w[0]?.toUpperCase()` is then `undefined`, which
      `join` writes as nothing). */
  function Head(piece: string): (r: string)
    ensures |r| <= 1
    ensures r == "" <==> piece == ""
    ensures r != "" ==> r[0] == Upper(piece[0])
  {
    if piece == "" then "" else [Upper(piece[0])]
  }

  /** The heads of all pieces, in order. */
  function Heads(pieces: seq<string>): (r: string)
    ensures |r| <= |pieces|
    ensures forall k :: 0 <= k < |r| ==> !('a' <= r[k] <= 'z')
  {
    if pieces == [] then ""
    else Head(pieces[0]) + Heads(pieces[1..])
  }

  /** The initials of an avatar: the heads of the first two space-separated
      pieces of the name (a missing or empty name counts as "?"), or "?"
      when they are all empty. Never empty, never longer than two, never a
      lower-case ASCII letter. */
  function Initials(name: Option<string>): (r: string)
    ensures 1 <= |r| <= 2
    ensures forall k :: 0 <= k < |r| ==> !('a' <= r[k] <= 'z')
  {
    var n := if Truthy(name) then name.value else "?";
    var pieces := SplitOnSpace(n);
    var heads := Heads(pieces[..if |pieces| < 2 then |pieces| else 2]);
    if heads == "" then "?" else heads
  }

  /** The avatar drawn for `name`: its initials, on `color` when that is
      a non-empty string and on the accent colour otherwise; never on an
      empty background. */
  function AvatarOf(name: Option<string>, color: Option<string>): (a: Avatar)
    ensures a.initials == Initials(name)
    ensures Truthy(color) ==> a.background == color.value
    ensures !Truthy(color) ==> a.background == AccentColor
    ensures a.background != ""
  {
    Avatar(Initials(name), if Truthy(color) then color.value else AccentColor)
  }

  /** A value interpolated into a JavaScript template literal. */
  function TemplateText(v: Option<string>): (r: string)
    ensures v.Some? ==> r == v.value
    ensures v.None? ==> r == "undefined"
  {
    if v.Some? then v.value else "undefined"
  }

  /** The render branch for one log entry. The frame's type alone picks the
      kind of row: "chat" a chat row, "notice"/"info"/"error" a pill,
      "dm" a direct-message row, anything else nothing at all. */
  function Classify(m: Frame, username: string, selfColor: Option<string>): (v: View)
    ensures v.ChatRow? <==> m.kind == Some("chat")
    ensures v.Pill? <==> m.kind in {Some("notice"), Some("info"), Some("error")}
    ensures v.DmRow? <==> m.kind == Some("dm")
    ensures v.Hidden? <==> m.kind !in {Some("chat"), Some("notice"), Some("info"), Some("error"), Some("dm")}
    ensures v.ChatRow? ==> (v.self <==> m.from == Some(username))
    ensures v.ChatRow? ==> v.name == m.from && v.nameColor == m.color && v.text == m.text
    ensures v.ChatRow? ==> (v.time.Some? <==> Truthy(m.time)) && (v.time.Some? ==> v.time == m.time)
    ensures v.ChatRow? && !v.self ==> v.avatar == AvatarOf(m.from, m.color)
    ensures v.ChatRow? && v.self ==>
      && v.avatar.initials == Initials(m.from)
      && v.avatar.background == (if Truthy(selfColor) then selfColor.value
                                 else if Truthy(m.color) then m.color.value
                                 else AccentColor)
    ensures m.kind == Some("notice") ==> v == Pill(NoticePill, m.text)
    ensures m.kind == Some("info") ==> v == Pill(InfoPill, m.text)
    ensures m.kind == Some("error") ==> v == Pill(ErrorPill, m.text)
    ensures v.DmRow? ==> (v.incoming <==> Truthy(m.from))
    ensures v.DmRow? ==> v.title == (if Truthy(m.from) then "DM from " else "DM to ") + TemplateText(Or(m.from, m.to))
    ensures v.DmRow? ==> v.text == m.text && v.avatar == AvatarOf(Or(m.from, m.to), m.color)
  {
    if m.kind == Some("chat") then
      var isSelf := m.from == Some(username);
      ChatRow(isSelf, m.from, m.color, if Truthy(m.time) then m.time else None, m.text,
              AvatarOf(m.from, if isSelf then Or(selfColor, m.color) else m.color))
    else if m.kind == Some("notice") then Pill(NoticePill, m.text)
    else if m.kind == Some("info") then Pill(InfoPill, m.text)
    else if m.kind == Some("error") then Pill(ErrorPill, m.text)
    else if m.kind == Some("dm") then
      var incoming := Truthy(m.from);
      var peer := Or(m.from, m.to);
      DmRow(incoming, (if incoming then "DM from " else "DM to ") + TemplateText(peer), m.text,
            AvatarOf(peer, m.color))
    else Hidden
  }

  /** A single word gives its own upper-cased first letter. */
  lemma InitialsOneWord(w: string)
    requires w != "" && ' ' !in w
    ensures Initials(Some(w)) == [Upper(w[0])]
  {
    SplitJoin([w]);
  }

  /** A name made of two or more space-separated pieces (any of them
      possibly empty) shows the heads of the first two pieces, or "?" when
      both are empty; later pieces are ignored. So "a  b" shows "A" and
      " b" shows "B". */
  lemma InitialsFirstTwoPieces(pieces: seq<string>)
    requires |pieces| >= 2
    requires forall i :: 0 <= i < |pieces| ==> ' ' !in pieces[i]
    ensures var h := Head(pieces[0]) + Head(pieces[1]);
      Initials(Some(JoinWithSpace(pieces))) == if h == "" then "?" else h
  {
    var n := JoinWithSpace(pieces);
    JoinStartsWithFirst(pieces);
    SplitJoin(pieces);
    HeadsOfTwo(pieces);
    InitialsOfSplit(n, pieces);
  }

  /** A name of two or more words gives the upper-cased first letters of
      the first two; later words are ignored. */
  lemma InitialsFirstTwoWords(pieces: seq<string>)
    requires |pieces| >= 2
    requires forall i :: 0 <= i < |pieces| ==> ' ' !in pieces[i]
    requires pieces[0] != "" && pieces[1] != ""
    ensures Initials(Some(JoinWithSpace(pieces))) == [Upper(pieces[0][0]), Upper(pieces[1][0])]
  {
    InitialsFirstTwoPieces(pieces);
  }

  /** Proof step: joining puts the first piece, then a space, before the
      rest (one unfolding of `JoinWithSpace`). */
  lemma JoinStartsWithFirst(pieces: seq<string>)
    requires |pieces| >= 2
    ensures JoinWithSpace(pieces) == pieces[0] + " " + JoinWithSpace(pieces[1..])
  {
  }

  /** The heads of the first two of several pieces. */
  lemma HeadsOfTwo(pieces: seq<string>)
    requires |pieces| >= 2
    ensures Heads(pieces[..2]) == Head(pieces[0]) + Head(pieces[1])
  {
    var two := pieces[..2];
    assert two[1..] == [pieces[1]];
    assert [pieces[1]][1..] == [];
  }

  /** Proof step: the initials of a non-empty name of at least two pieces
      are the heads of the first two, or "?" when both pieces are empty
      (one unfolding of `Initials`). */
  lemma InitialsOfSplit(n: string, pieces: seq<string>)
    requires n != "" && |pieces| >= 2 && SplitOnSpace(n) == pieces
    ensures Initials(Some(n)) == if Heads(pieces[..2]) == "" then "?" else Heads(pieces[..2])
  {
  }

  /** A name that starts with two spaces has two empty leading pieces, so
      its avatar shows "?" whatever follows. */
  lemma InitialsTwoLeadingSpaces(rest: string)
    ensures Initials(Some("  " + rest)) == "?"
  {
    var n := "  " + rest;
    var pieces := SplitOnSpace(n);
    assert |pieces| >= 2 && pieces[..2] == ["", ""] by {
      assert n == " " + (" " + rest);
      SplitLeadingSpace(" " + rest);
      SplitLeadingSpace(rest);
    }
    assert Heads(["", ""]) == "";
    InitialsOfSplit(n, pieces);
  }

  /** A leading space splits off an empty first piece. */
  lemma SplitLeadingSpace(t: string)
    ensures SplitOnSpace(" " + t) == [""] + SplitOnSpace(t)
  {
    IndexOfAfter([], ' ', t);
    assert [] + [' '] + t == " " + t;
    assert (" " + t)[1..] == t;
  }

  /** A missing or empty name shows "?". */
  lemma InitialsOfNothing(name: Option<string>)
    requires !Truthy(name)
    ensures Initials(name) == "?"
  {
    SplitJoin(["?"]);
    assert JoinWithSpace(["?"]) == "?";
    assert ["?"][..1] == ["?"];
    assert Heads(["?"]) == [Upper('?')] == "?";
  }
}
