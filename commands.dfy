/**
 * The remote-control commands read from the chat (trading_bot.py:1367-1407):
 * the message text is stripped of surrounding white space, messages from any
 * chat but the configured one are dropped, and four words are recognised,
 * each with or without a leading slash.
 */
module Commands {
  import opened Options

  datatype Command = Info | Stop | Start | SellAll | Ignored

  /** The ASCII characters Python's `str.strip()` removes: space, tab to carriage return, and 0x1C to 0x1F. */
  predicate IsSpace(c: char) {
    c == ' ' || 9 <= c as int <= 13 || 28 <= c as int <= 31
  }

  function StripLeft(s: string): (r: string)
    ensures |r| <= |s| && r == s[|s| - |r|..]
    ensures r == [] || !IsSpace(r[0])
    ensures forall i :: 0 <= i < |s| - |r| ==> IsSpace(s[i])
  {
    if s != [] && IsSpace(s[0]) then StripLeft(s[1..]) else s
  }

  function StripRight(s: string): (r: string)
    ensures |r| <= |s| && r == s[..|r|]
    ensures r == [] || !IsSpace(r[|r| - 1])
    ensures forall i :: |r| <= i < |s| ==> IsSpace(s[i])
  {
    if s != [] && IsSpace(s[|s| - 1]) then StripRight(s[..|s| - 1]) else s
  }

  /**
   * `str.strip()`: the text without its leading and trailing white space,
   * which is a contiguous part of the input with only white space around it.
   */
  function Strip(s: string): (r: string)
    ensures r == [] || (!IsSpace(r[0]) && !IsSpace(r[|r| - 1]))
    ensures exists i, j ::
      (0 <= i <= j <= |s| && r == s[i..j]
       && (forall k :: 0 <= k < i ==> IsSpace(s[k]))
       && (forall k :: j <= k < |s| ==> IsSpace(s[k])))
  {
    var l := StripLeft(s);
    var r := StripRight(l);
    var i := |s| - |l|;
    assert r == s[i..i + |r|];
    assert forall k :: i + |r| <= k < |s| ==> s[k] == l[k - i];
    r
  }

  /** Stripping twice is stripping once. */
  lemma StripIdempotent(s: string)
    ensures Strip(Strip(s)) == Strip(s)
  {
    var r := Strip(s);
    assert StripLeft(r) == r;
    assert StripRight(r) == r;
  }

  predicate AllSpace(s: string) {
    forall k :: 0 <= k < |s| ==> IsSpace(s[k])
  }

  /** Surrounding white space does not change what is read. */
  lemma StripIgnoresPadding(pre: string, t: string, post: string)
    requires AllSpace(pre) && AllSpace(post)
    ensures Strip(pre + t + post) == Strip(t)
  {
    assert pre + t + post == pre + (t + post);
    LeftPadding(pre, t + post);
    if StripLeft(t) == [] {
      LeftOfBlank(t, post);
      LeftPadding(post, []);
      assert post + [] == post;
    } else {
      LeftOfContent(t, post);
      RightPadding(StripLeft(t), post);
    }
  }

  lemma {:induction false} LeftPadding(pre: string, x: string)
    requires AllSpace(pre)
    ensures StripLeft(pre + x) == StripLeft(x)
    decreases |pre|
  {
    if pre != [] {
      assert (pre + x)[0] == pre[0] && IsSpace(pre[0]);
      assert (pre + x)[1..] == pre[1..] + x;
      LeftPadding(pre[1..], x);
    } else {
      assert pre + x == x;
    }
  }

  lemma {:induction false} RightPadding(x: string, post: string)
    requires AllSpace(post)
    ensures StripRight(x + post) == StripRight(x)
    decreases |post|
  {
    if post != [] {
      var n := |post| - 1;
      assert (x + post)[..|x + post| - 1] == x + post[..n];
      RightPadding(x, post[..n]);
    } else {
      assert x + post == x;
    }
  }

  lemma {:induction false} LeftOfBlank(t: string, post: string)
    requires StripLeft(t) == []
    ensures StripLeft(t + post) == StripLeft(post)
    decreases |t|
  {
    if t != [] {
      assert (t + post)[1..] == t[1..] + post;
      LeftOfBlank(t[1..], post);
    } else {
      assert t + post == post;
    }
  }

  lemma {:induction false} LeftOfContent(t: string, post: string)
    requires StripLeft(t) != []
    ensures StripLeft(t + post) == StripLeft(t) + post
    decreases |t|
  {
    assert (t + post)[0] == t[0];
    if IsSpace(t[0]) {
      assert (t + post)[1..] == t[1..] + post;
      LeftOfContent(t[1..], post);
    } else {
      assert StripLeft(t) == t;
    }
  }

  lemma WordsAreClean(w: string)
    requires Parse(w) != Ignored
    ensures w != [] && !IsSpace(w[0]) && !IsSpace(w[|w| - 1])
  {
  }

  lemma CleanIsStripped(w: string)
    requires w != [] && !IsSpace(w[0]) && !IsSpace(w[|w| - 1])
    ensures Strip(w) == w
  {
  }

  /** The command a stripped message text stands for. */
  function Parse(text: string): (c: Command)
    ensures c == Info <==> text == "/info" || text == "info"
    ensures c == Stop <==> text == "/stop" || text == "stop"
    ensures c == Start <==> text == "/start" || text == "start"
    ensures c == SellAll <==> text == "/sell" || text == "sell"
  {
    if text == "/info" || text == "info" then Info
    else if text == "/stop" || text == "stop" then Stop
    else if text == "/start" || text == "start" then Start
    else if text == "/sell" || text == "sell" then SellAll
    else Ignored
  }

  /**
   * One chat update: updates without text and messages from other chats are
   * ignored; otherwise the stripped text is parsed.
   */
  function Receive(text: Option<string>, chatId: string, ownChat: string): (c: Command)
    ensures text.None? || chatId != ownChat ==> c == Ignored
    ensures text.Some? && chatId == ownChat ==> c == Parse(Strip(text.value))
  {
    if text.None? || chatId != ownChat then Ignored else Parse(Strip(text.value))
  }

  /** A recognised word reads the same with white space around it. */
  lemma ReceivePadded(pre: string, word: string, post: string, chat: string)
    requires AllSpace(pre) && AllSpace(post)
    requires Parse(word) != Ignored
    ensures Receive(Some(pre + word + post), chat, chat) == Parse(word)
  {
    StripIgnoresPadding(pre, word, post);
    WordsAreClean(word);
    CleanIsStripped(word);
  }
}
