/** The frames exchanged between server and browser, as the records both
    sides see once JSON is decoded, and the server's constants. */
module Protocol {

  datatype Option<+T> = None | Some(value: T)

  /** JavaScript truthiness of an optional string field: present and
      non-empty. */
  predicate Truthy(v: Option<string>)
  {
    v.Some? && v.value != ""
  }

  /** JavaScript `a || b` on two optional strings. */
  function Or(a: Option<string>, b: Option<string>): Option<string>
  {
    if Truthy(a) then a else b
  }

  /** One decoded JSON object. Every field may be absent; `kind` is the
      object's `"type"` member. */
  datatype Frame = Frame(
    kind: Option<string>,
    from: Option<string>,
    to: Option<string>,
    text: Option<string>,
    color: Option<string>,
    time: Option<string>)

  /** The six colours the server picks from when a user joins. */
  const Palette: seq<string> := ["#e74c3c", "#2ecc71", "#f1c40f", "#3498db", "#9b59b6", "#1abc9c"]

  /** The colour of every direct-message frame. */
  const DmColor: string := "#ff66cc"

  const GreetingText: string := "enter your username"
  const BadNameText: string := "invalid or duplicate username"
  const UsageText: string := "use @username message"
  const DisconnectedText: string := "Disconnected from server"
  const QuitCommand: string := "/quit"

  /** A frame with only `type` and `text`, the shape of every status line. */
  function StatusFrame(kind: string, text: string): Frame
  {
    Frame(Some(kind), None, None, Some(text), None, None)
  }

  function InfoFrame(text: string): Frame { StatusFrame("info", text) }

  function ErrorFrame(text: string): Frame { StatusFrame("error", text) }

  function NoticeFrame(text: string): Frame { StatusFrame("notice", text) }

  function JoinedAsText(name: string): string { "joined as " + name }

  function JoinedChatText(name: string): string { name + " joined the chat" }

  function LeftChatText(name: string): string { name + " left the chat" }

  function NotFoundText(name: string): string { "user '" + name + "' not found" }

  /** A public chat line as the server broadcasts it. */
  function ChatFrame(sender: string, color: string, time: string, text: string): Frame
  {
    Frame(Some("chat"), Some(sender), None, Some(text), Some(color), Some(time))
  }

  /** The copy of a direct message delivered to its recipient. */
  function DmFromFrame(sender: string, text: string): Frame
  {
    Frame(Some("dm"), Some(sender), None, Some(text), Some(DmColor), None)
  }

  /** The echo of a direct message returned to its sender. */
  function DmToFrame(recipient: string, text: string): Frame
  {
    Frame(Some("dm"), None, Some(recipient), Some(text), Some(DmColor), None)
  }
}
