/**
 The abstract view of the chat platform that the bot runs on: identifiers,
 users, the records a channel history yields, the 100-message history window,
 and Python's `str.strip()` as the bot uses it to skip blank questions.
 */
module Platform {

  /** Discord snowflakes: non-negative integers. */
  type UserId = nat
  type ChannelId = nat

  datatype Option<T> = None | Some(value: T)

  /** A guild member as the bot sees it: its id and its (unique) user name. */
  datatype User = User(id: UserId, name: string)

  /** Who wrote a message: the bot itself or a guild member. */
  datatype Author = Bot | Person(id: UserId)

  /** One record of a channel history: author, title of the first embed
      (`None` when the message has no embed) and the text content. */
  datatype Message = Message(author: Author, firstTitle: Option<string>, content: string)

  /** Every `history(limit=100)` call of the bot reads at most this many messages. */
  const HistoryLimit: nat := 100

  /** The part of a history that a `history(limit=100)` iteration visits.
      Histories are given newest first, the order the platform yields them. */
  function Window<T>(history: seq<T>): (w: seq<T>)
    ensures w <= history
    ensures |w| == if |history| < HistoryLimit then |history| else HistoryLimit
  {
    if |history| <= HistoryLimit then history else history[..HistoryLimit]
  }

  /** Python's `str.isspace` for one character. */
  predicate IsSpace(c: char)
  {
    var n := c as int;
    (0x09 <= n <= 0x0D) || (0x1C <= n <= 0x20) || n == 0x85 || n == 0xA0 ||
    n == 0x1680 || (0x2000 <= n <= 0x200A) || n == 0x2028 || n == 0x2029 ||
    n == 0x202F || n == 0x205F || n == 0x3000
  }

  /** The string with its leading whitespace removed: a suffix of `s` that
      starts with a non-whitespace character, after only whitespace. */
  function TrimStart(s: string): (r: string)
    ensures |r| <= |s| && r == s[|s| - |r|..]
    ensures r == [] || !IsSpace(r[0])
    ensures forall i :: 0 <= i < |s| - |r| ==> IsSpace(s[i])
  {
    if s != [] && IsSpace(s[0]) then TrimStart(s[1..]) else s
  }

  /** The string with its trailing whitespace removed. */
  function TrimEnd(s: string): (r: string)
    ensures r <= s
    ensures r == [] || !IsSpace(r[|r| - 1])
    ensures forall i :: |r| <= i < |s| ==> IsSpace(s[i])
  {
    if s != [] && IsSpace(s[|s| - 1]) then TrimEnd(s[..|s| - 1]) else s
  }

  /** Python's `str.strip()` without arguments. */
  function Strip(s: string): string
  {
    TrimEnd(TrimStart(s))
  }

  /** `s.strip()` is truthy: the string holds a character that is not whitespace. */
  predicate NonBlank(s: string)
  {
    Strip(s) != []
  }

  /** Stripping leaves an empty string exactly when every character is whitespace,
      and what is left starts and ends with a non-whitespace character. */
  lemma StripEmptyIffAllSpace(s: string)
    ensures NonBlank(s) <==> exists i :: 0 <= i < |s| && !IsSpace(s[i])
    ensures NonBlank(s) ==> !IsSpace(Strip(s)[0]) && !IsSpace(Strip(s)[|Strip(s)| - 1])
  {
    var t := TrimStart(s);
    var k := |s| - |t|;
    if t == [] {
      assert forall i :: 0 <= i < |s| ==> IsSpace(s[i]);
      assert Strip(s) == [];
    } else {
      assert s[k] == t[0] && !IsSpace(s[k]);
      var r := TrimEnd(t);
      assert |r| > 0;
      assert r[0] == t[0];
    }
  }
}
