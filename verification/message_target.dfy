/**
 * How a message target shapes numeric replies: error replies get a trailing
 * human-readable text, and a message of the day becomes a framed list of
 * "- " lines.
 */
module MessageTarget {
  import opened Types
  import opened ServerErrors
  import Seqs

  /** `sendError`'s argument list: the given arguments, then the explicit text or the code's table text. */
  function ErrorArgs(code: Code, message: Option<string>, args: seq<string>): (r: seq<string>)
    ensures |r| == |args| + 1 && r[..|args|] == args
    ensures r[|args|] == if message.Some? then message.value else ErrorMessage(code)
  {
    args + [message.GetOr(ErrorMessage(code))]
  }

  /** The message `sendReply` sends: numeric `code` with exactly `args`, addressed to `target`. */
  function Reply(origin: string, target: string, code: Code, args: seq<string>): Message {
    Message(ServerName(origin), Some(target), Numeric(code, args))
  }

  /** The message `sendError` sends. */
  function ErrorReply(origin: string, target: string, code: Code, message: Option<string>, args: seq<string>): Message {
    Reply(origin, target, code, ErrorArgs(code, message, args))
  }

  /** Number of occurrences of `c` in `s`. */
  function Occurrences(s: string, c: char): nat {
    if s == [] then 0 else (if s[0] == c then 1 else 0) + Occurrences(s[1..], c)
  }

  /** `components(separatedBy: "\n")`: the pieces between newlines, in order. */
  function SplitLines(s: string): (pieces: seq<string>)
    ensures |pieces| >= 1
  {
    if s == [] then [""]
    else
      var rest := SplitLines(s[1..]);
      if s[0] == '\n' then [""] + rest else [[s[0]] + rest[0]] + rest[1..]
  }

  /** Every character of `s` except carriage returns, in order. */
  function StripCR(s: string): (r: string)
    ensures '\r' !in r
    ensures |r| <= |s|
  {
    if s == [] then "" else (if s[0] == '\r' then "" else [s[0]]) + StripCR(s[1..])
  }

  /** The lines of a message of the day: each piece without carriage returns, prefixed "- ". */
  function MotDLines(text: string): seq<string> {
    var pieces := SplitLines(text);
    seq(|pieces|, i requires 0 <= i < |pieces| => "- " + StripCR(pieces[i]))
  }

  /** What `sendMotD` sends: nothing for an empty text, else start, one reply per line, end. */
  function MotDMessages(origin: string, target: string, text: string): seq<Message> {
    if text == [] then []
    else
      var lines := MotDLines(text);
      [Reply(origin, target, REPLY_MOTD_START, ["- " + origin + " Message of the Day -"])]
      + seq(|lines|, i requires 0 <= i < |lines| => Message(ServerName(origin), None, Numeric(REPLY_MOTD, [target, lines[i]])))
      + [Reply(origin, target, REPLY_END_OF_MOTD, ["End of /MOTD command."])]
  }

  /** The pieces hold no newline, and there is one more piece than there are newlines. */
  lemma {:induction false} SplitLinesShape(s: string)
    ensures |SplitLines(s)| == Occurrences(s, '\n') + 1
    ensures forall i | 0 <= i < |SplitLines(s)| :: '\n' !in SplitLines(s)[i]
  {
    if s != [] {
      SplitLinesShape(s[1..]);
      var rest := SplitLines(s[1..]);
      if s[0] != '\n' {
        var p := SplitLines(s);
        assert p[0] == [s[0]] + rest[0];
        forall i | 0 <= i < |p| ensures '\n' !in p[i] {
          if i > 0 { assert p[i] == rest[i]; }
        }
      }
    }
  }

  /** Joining the pieces with newlines gives the text back. */
  lemma {:induction false} SplitLinesJoin(s: string)
    ensures Seqs.JoinWith(SplitLines(s), "\n") == s
  {
    if s != [] {
      SplitLinesJoin(s[1..]);
      var rest := SplitLines(s[1..]);
      if s[0] == '\n' {
        assert SplitLines(s) == [""] + rest;
        assert ([""] + rest)[1..] == rest;
      } else {
        var p := SplitLines(s);
        if |rest| == 1 {
          assert p == [[s[0]] + rest[0]];
        } else {
          assert p[1..] == rest[1..];
          assert Seqs.JoinWith(rest, "\n") == rest[0] + "\n" + Seqs.JoinWith(rest[1..], "\n");
        }
      }
    }
  }

  /**
   * A non-empty message of the day is sent as the start reply, one reply per
   * line (one more line than the text has newlines, each "- " followed by the
   * line's text without carriage returns), then the end reply.
   */
  lemma MotDShape(origin: string, target: string, text: string)
    requires text != []
    ensures var ms := MotDMessages(origin, target, text);
      && |ms| == Occurrences(text, '\n') + 3
      && ms[0] == Reply(origin, target, REPLY_MOTD_START, ["- " + origin + " Message of the Day -"])
      && ms[|ms| - 1] == Reply(origin, target, REPLY_END_OF_MOTD, ["End of /MOTD command."])
      && forall i | 1 <= i < |ms| - 1 ::
           ms[i] == Message(ServerName(origin), None, Numeric(REPLY_MOTD, [target, "- " + StripCR(SplitLines(text)[i - 1])]))
           && '\r' !in ms[i].command.args[1][2..]
           && '\n' !in ms[i].command.args[1]
  {
    SplitLinesShape(text);
    MotDFrame(origin, target, text);
    var ms := MotDMessages(origin, target, text);
    forall i | 1 <= i < |ms| - 1
      ensures '\r' !in ms[i].command.args[1][2..]
      ensures '\n' !in ms[i].command.args[1]
    {
      var p := SplitLines(text)[i - 1];
      assert ms[i].command.args[1] == "- " + StripCR(p);
      assert ("- " + StripCR(p))[2..] == StripCR(p);
      StripCRKeeps(p, '\n');
    }
  }

  /** A message of the day is the start reply, one reply per piece of the text, then the end reply. */
  lemma MotDFrame(origin: string, target: string, text: string)
    requires text != []
    ensures var ms := MotDMessages(origin, target, text);
      && |ms| == |SplitLines(text)| + 2
      && ms[0] == Reply(origin, target, REPLY_MOTD_START, ["- " + origin + " Message of the Day -"])
      && ms[|ms| - 1] == Reply(origin, target, REPLY_END_OF_MOTD, ["End of /MOTD command."])
      && forall i | 1 <= i < |ms| - 1 ::
           ms[i] == Message(ServerName(origin), None, Numeric(REPLY_MOTD, [target, "- " + StripCR(SplitLines(text)[i - 1])]))
  {
    var lines := MotDLines(text);
    var mid := seq(|lines|, i requires 0 <= i < |lines| => Message(ServerName(origin), None, Numeric(REPLY_MOTD, [target, lines[i]])));
    var ms := MotDMessages(origin, target, text);
    assert ms == [Reply(origin, target, REPLY_MOTD_START, ["- " + origin + " Message of the Day -"])] + mid
                 + [Reply(origin, target, REPLY_END_OF_MOTD, ["End of /MOTD command."])];
    forall i | 1 <= i < |ms| - 1
      ensures ms[i] == Message(ServerName(origin), None, Numeric(REPLY_MOTD, [target, "- " + StripCR(SplitLines(text)[i - 1])]))
    {
      assert ms[i] == mid[i - 1];
    }
  }

  /** Stripping carriage returns keeps every other character: one is in the result exactly when it is in the input. */
  lemma {:induction false} StripCRKeeps(s: string, c: char)
    requires c != '\r'
    ensures c in StripCR(s) <==> c in s
  {
    if s != [] {
      StripCRKeeps(s[1..], c);
      assert s == [s[0]] + s[1..];
    }
  }

  /** Stripping carriage returns is filtering them out: the other characters stay, in order. */
  lemma {:induction false} StripCRIsFilter(s: string)
    ensures StripCR(s) == Seqs.Filtered(s, '\r')
  {
    if s != [] {
      StripCRIsFilter(s[1..]);
    }
  }

  /** A line without carriage returns goes out unchanged. */
  lemma {:induction false} StripCRNone(s: string)
    requires '\r' !in s
    ensures StripCR(s) == s
  {
    if s != [] {
      assert s == [s[0]] + s[1..];
      StripCRNone(s[1..]);
    }
  }
}
