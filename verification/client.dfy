/** The client's pure command handling (cmd/client/client.go): splitting a
    console line on single spaces, building the `send` message and checking
    it against the limits, the dispatch of console lines, and the username
    guard applied before connecting. */
module Client {
  import opened Common
  import opened Handshake

  const SPACE: Byte := 32

  /** The ASCII bytes of the console commands "exit" and "send". */
  const EXIT_WORD: Bytes := [101, 120, 105, 116]
  const SEND_WORD: Bytes := [115, 101, 110, 100]

  /** Number of space bytes in `s`; none exactly when `s` holds no space. */
  function SpaceCount(s: Bytes): (n: nat)
    ensures n <= |s|
    ensures n == 0 <==> SPACE !in s
  {
    if s == [] then 0 else (if s[0] == SPACE then 1 else 0) + SpaceCount(s[1..])
  }

  /** `strings.Join(tokens, " ")`: the join of no tokens is empty, the
      first token begins the join, and when more tokens follow it a single
      space separates it from their join. */
  function Join(tokens: seq<Bytes>): (s: Bytes)
    ensures |tokens| == 0 ==> s == []
    ensures |tokens| >= 1 ==> |tokens[0]| <= |s| && s[..|tokens[0]|] == tokens[0]
    ensures |tokens| >= 2 ==> |s| > |tokens[0]| && s[|tokens[0]|] == SPACE
  {
    if |tokens| == 0 then []
    else if |tokens| == 1 then tokens[0]
    else tokens[0] + [SPACE] + Join(tokens[1..])
  }

  /** The scan behind Split: `token` is the piece read so far; a space ends
      it, the end of the input ends it and the last piece. */
  function SplitFrom(token: Bytes, s: Bytes): (tokens: seq<Bytes>)
    ensures |tokens| >= 1
    decreases |s|
  {
    if s == [] then [token]
    else if s[0] == SPACE then [token] + SplitFrom([], s[1..])
    else SplitFrom(token + [s[0]], s[1..])
  }

  /** The scan yields one more piece than there are spaces, no piece holds a
      space, and joining the pieces gives back what was scanned. */
  lemma {:induction false} SplitFromSpec(token: Bytes, s: Bytes)
    requires SPACE !in token
    ensures |SplitFrom(token, s)| == SpaceCount(s) + 1
    ensures forall i | 0 <= i < |SplitFrom(token, s)| :: SPACE !in SplitFrom(token, s)[i]
    ensures Join(SplitFrom(token, s)) == token + s
    decreases |s|
  {
    if s == [] {
      assert token + s == token;
    } else if s[0] == SPACE {
      var rest := SplitFrom([], s[1..]);
      SplitFromSpec([], s[1..]);
      assert SplitFrom(token, s) == [token] + rest;
      assert ([token] + rest)[1..] == rest;
      assert token + s == token + [SPACE] + s[1..];
    } else {
      SplitFromSpec(token + [s[0]], s[1..]);
      assert token + s == (token + [s[0]]) + s[1..];
    }
  }

  /** `strings.Split(s, " ")`: the maximal space-free pieces between the
      spaces of `s`, empty pieces included, so there is always one more
      piece than there are spaces and joining them gives `s` back. */
  function Split(s: Bytes): (tokens: seq<Bytes>)
    ensures |tokens| == SpaceCount(s) + 1
    ensures forall i | 0 <= i < |tokens| :: SPACE !in tokens[i]
    ensures Join(tokens) == s
  {
    SplitFromSpec([], s);
    SplitFrom([], s)
  }

  lemma {:induction false} SplitFromWord(token: Bytes, w: Bytes, rest: Bytes)
    requires SPACE !in w
    ensures SplitFrom(token, w + [SPACE] + rest) == [token + w] + SplitFrom([], rest)
    decreases |w|
  {
    var s := w + [SPACE] + rest;
    if w == [] {
      assert s == [SPACE] + rest;
      assert s[1..] == rest;
      assert token + w == token;
    } else {
      assert s[0] == w[0] && s[1..] == w[1..] + [SPACE] + rest;
      SplitFromWord(token + [w[0]], w[1..], rest);
      assert (token + [w[0]]) + w[1..] == token + w;
    }
  }

  lemma {:induction false} SplitFromLastWord(token: Bytes, w: Bytes)
    requires SPACE !in w
    ensures SplitFrom(token, w) == [token + w]
    decreases |w|
  {
    if w == [] {
      assert token + w == token;
    } else {
      SplitFromLastWord(token + [w[0]], w[1..]);
      assert (token + [w[0]]) + w[1..] == token + w;
    }
  }

  /** A space-free word followed by a space splits off as the first token. */
  lemma SplitAfterWord(w: Bytes, rest: Bytes)
    requires SPACE !in w
    ensures Split(w + [SPACE] + rest) == [w] + Split(rest)
  {
    SplitFromWord([], w, rest);
    assert [] + w == w;
  }

  /** Split undoes Join on a nonempty list of space-free tokens. */
  lemma {:induction false} SplitJoin(tokens: seq<Bytes>)
    requires |tokens| >= 1
    requires forall i | 0 <= i < |tokens| :: SPACE !in tokens[i]
    ensures Split(Join(tokens)) == tokens
    decreases |tokens|
  {
    if |tokens| == 1 {
      SplitFromLastWord([], tokens[0]);
      assert [] + tokens[0] == tokens[0];
    } else {
      SplitAfterWord(tokens[0], Join(tokens[1..]));
      SplitJoin(tokens[1..]);
      assert [tokens[0]] + tokens[1..] == tokens;
    }
  }

  /** What `handle_send_cmd` does with a console line. */
  datatype SendOutcome =
    | UsageHint          // fewer than two tokens after the command word
    | RecipientTooLong   // error printed, nothing sent
    | MessageTooLong     // error printed, nothing sent
    | Send(msg: Message) // the message handed to send_message

  /** `handle_send_cmd`: the first token is ignored, the second is the
      recipient and the remaining tokens rejoined with single spaces are the
      body; then the two length checks, each allowing its limit exactly. */
  function HandleSendCmd(rawCmd: Bytes): (r: SendOutcome)
    ensures r.UsageHint? <==> SpaceCount(rawCmd) < 2
    ensures r.Send? ==> r.msg.From == [] && !r.msg.Error && WithinLimits(r.msg)
    ensures r.Send? ==> SPACE !in r.msg.To
  {
    var tokens := Split(rawCmd);
    var args := tokens[1..];
    if |args| < 2 then UsageHint
    else
      var to := args[0];
      var message := Join(args[1..]);
      if |to| > MAX_USERNAME_LENGTH then RecipientTooLong
      else if |message| > MAX_MESSAGE_LENGTH then MessageTooLong
      else Send(Message(to, [], message, false))
  }

  /** Every line with at least two spaces is `cmd + " " + to + " " + body`
      with space-free `cmd` and `to`: the recipient is the text between the
      first two spaces, the body is exactly everything after the second
      space (empty pieces and further spaces kept), and the limits are
      applied to those two pieces. */
  lemma SendCmdShape(cmd: Bytes, to: Bytes, body: Bytes)
    requires SPACE !in cmd && SPACE !in to
    ensures HandleSendCmd(cmd + [SPACE] + to + [SPACE] + body) ==
      if |to| > MAX_USERNAME_LENGTH then RecipientTooLong
      else if |body| > MAX_MESSAGE_LENGTH then MessageTooLong
      else Send(Message(to, [], body, false))
  {
    var raw := cmd + [SPACE] + to + [SPACE] + body;
    assert raw == cmd + [SPACE] + (to + [SPACE] + body);
    SplitAfterWord(cmd, to + [SPACE] + body);
    SplitAfterWord(to, body);
    var tokens := Split(raw);
    assert tokens == [cmd] + ([to] + Split(body));
    assert tokens[1..][1..] == Split(body);
  }

  /** The command word never influences what is sent: `send`, `sendx` or
      any other space-free first word give the same outcome. */
  lemma CommandWordIgnored(cmd1: Bytes, cmd2: Bytes, rest: Bytes)
    requires SPACE !in cmd1 && SPACE !in cmd2
    ensures HandleSendCmd(cmd1 + [SPACE] + rest) == HandleSendCmd(cmd2 + [SPACE] + rest)
  {
    SplitAfterWord(cmd1, rest);
    SplitAfterWord(cmd2, rest);
    assert Split(cmd1 + [SPACE] + rest)[1..] == Split(rest);
    assert Split(cmd2 + [SPACE] + rest)[1..] == Split(rest);
  }

  /** The console loop of the client's `main`, one line at a time. */
  datatype ConsoleAction = Exit | SendCommand(outcome: SendOutcome) | Unrecognized

  /** `strings.HasPrefix`: `line` is `prefix` followed by something. */
  predicate StartsWith(line: Bytes, prefix: Bytes): (b: bool)
    ensures b <==> exists rest :: line == prefix + rest
  {
    assert |prefix| <= |line| ==> line == line[..|prefix|] + line[|prefix|..];
    |prefix| <= |line| && line[..|prefix|] == prefix
  }

  /** `exit` quits, any line beginning with `send` goes to handle_send_cmd,
      everything else is reported as unrecognized. */
  function ConsoleDispatch(line: Bytes): (a: ConsoleAction)
    ensures a.Exit? <==> line == EXIT_WORD
    ensures a.SendCommand? <==> StartsWith(line, SEND_WORD)
    ensures a.SendCommand? ==> a.outcome == HandleSendCmd(line)
  {
    if line == EXIT_WORD then
      assert line[..4][0] != SEND_WORD[0];
      Exit
    else if StartsWith(line, SEND_WORD) then SendCommand(HandleSendCmd(line))
    else Unrecognized
  }

  /** A line whose first word merely begins with `send` (such as `sendx`)
      is still a send command, and its first word plays no part in it. */
  lemma SendPrefixedLineSends(suffix: Bytes, to: Bytes, body: Bytes)
    requires SPACE !in suffix && SPACE !in to
    requires |to| <= MAX_USERNAME_LENGTH && |body| <= MAX_MESSAGE_LENGTH
    ensures ConsoleDispatch(SEND_WORD + suffix + [SPACE] + to + [SPACE] + body)
            == SendCommand(Send(Message(to, [], body, false)))
  {
    var word := SEND_WORD + suffix;
    var line := word + [SPACE] + to + [SPACE] + body;
    assert line[..4] == SEND_WORD;
    assert line[0] != EXIT_WORD[0];
    assert SPACE !in word by {
      forall i | 0 <= i < |word| ensures word[i] != SPACE {
        if i >= 4 { assert word[i] == suffix[i - 4]; }
      }
    }
    SendCmdShape(word, to, body);
  }

  /** The username guard of the client's `main`: it lets a name through
      exactly when the server will read back that very name from its frame,
      so the guard is both needed and sufficient. */
  predicate UsernameAllowed(username: Bytes): (ok: bool)
    ensures ok <==> ParseHandshake(Frame(username)) == Accepted(username, [])
  {
    |username| <= MAX_USERNAME_LENGTH
  }
}
