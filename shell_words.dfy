/** How the platform shell cuts a command line into the argument vector of the program it
    starts, for command lines free of every shell feature except blanks and double quotes.
    This is the reading every command built by the managers gets from `shell=True`; the
    lemmas here let each builder be checked against the arguments the tool receives. */
module ShellWords {
  import opened Text

  /** Blanks separate words outside quotes. */
  predicate IsBlank(c: char) {
    c == ' ' || c == '\t'
  }

  /** Characters the shell gives a meaning to outside double quotes (besides blanks),
      including `{`, which starts brace expansion in shells such as bash. */
  predicate IsShellSpecial(c: char) {
    || c == '"' || c == '\'' || c == '\\' || c == '$' || c == '`' || c == ';' || c == '&'
    || c == '|' || c == '<' || c == '>' || c == '(' || c == ')' || c == '*' || c == '?'
    || c == '[' || c == '{' || c == '#' || c == '~' || c == '\n'
  }

  /** Characters the shell still interprets inside double quotes. */
  predicate IsQuotedSpecial(c: char) {
    c == '"' || c == '\\' || c == '$' || c == '`'
  }

  /** One argument as the managers write it into a command line: bare or in double quotes. */
  datatype Arg = Bare(text: string) | Quoted(text: string)

  /** The argument reaches the program unchanged: a bare word is non-empty and holds no
      blank or special character; a quoted one holds none of the characters that stay
      special inside double quotes. */
  predicate WellFormed(a: Arg) {
    match a
    case Bare(t) => t != [] && forall k :: 0 <= k < |t| ==> !IsBlank(t[k]) && !IsShellSpecial(t[k])
    case Quoted(t) => forall k :: 0 <= k < |t| ==> !IsQuotedSpecial(t[k])
  }

  predicate AllWellFormed(args: seq<Arg>) {
    forall i :: 0 <= i < |args| ==> WellFormed(args[i])
  }

  function Render(a: Arg): string {
    match a
    case Bare(t) => t
    case Quoted(t) => "\"" + t + "\""
  }

  /** The arguments written out with one blank between neighbours. */
  function JoinArgs(args: seq<Arg>): string {
    if |args| == 0 then ""
    else if |args| == 1 then Render(args[0])
    else Render(args[0]) + " " + JoinArgs(args[1..])
  }

  function Texts(args: seq<Arg>): seq<string> {
    seq(|args|, i requires 0 <= i < |args| => args[i].text)
  }

  /** Reads one word from the front of `s`: a double quote switches quoting on or off and is
      dropped, a blank outside quotes ends the word; returns the word and what follows it. */
  function ReadWord(s: string, quoted: bool): (w: (string, string))
    ensures |w.1| <= |s|
    ensures s != [] && !IsBlank(s[0]) && !quoted ==> |w.1| < |s|
  {
    if s == [] then ([], [])
    else if s[0] == '"' then ReadWord(s[1..], !quoted)
    else if IsBlank(s[0]) && !quoted then ([], s)
    else
      var (t, rest) := ReadWord(s[1..], quoted);
      ([s[0]] + t, rest)
  }

  /** The words of a command line, in order. */
  function Words(s: string): seq<string>
    decreases |s|
  {
    if s == [] then []
    else if IsBlank(s[0]) then Words(s[1..])
    else
      var (t, rest) := ReadWord(s, false);
      [t] + Words(rest)
  }

  predicate EndsWord(tail: string) {
    tail == [] || IsBlank(tail[0])
  }

  lemma {:induction false} ReadBare(t: string, tail: string)
    requires forall k :: 0 <= k < |t| ==> !IsBlank(t[k]) && t[k] != '"'
    requires EndsWord(tail)
    ensures ReadWord(t + tail, false) == (t, tail)
  {
    if t == [] {
      assert t + tail == tail;
    } else {
      var s := t + tail;
      assert s[0] == t[0] && s[1..] == t[1..] + tail;
      ReadBare(t[1..], tail);
      assert [t[0]] + t[1..] == t;
    }
  }

  lemma {:induction false} ReadQuotedBody(t: string, tail: string)
    requires forall k :: 0 <= k < |t| ==> t[k] != '"'
    requires EndsWord(tail)
    ensures ReadWord(t + "\"" + tail, true) == (t, tail)
  {
    var s := t + "\"" + tail;
    if t == [] {
      assert s[0] == '"' && s[1..] == tail;
    } else {
      assert s[0] == t[0] && s[1..] == t[1..] + "\"" + tail;
      ReadQuotedBody(t[1..], tail);
      assert [t[0]] + t[1..] == t;
    }
  }

  /** A well-formed argument written into a command line is read back as its own text. */
  lemma WordsOfArg(a: Arg, tail: string)
    requires WellFormed(a) && EndsWord(tail)
    ensures Words(Render(a) + tail) == [a.text] + Words(tail)
  {
    var s := Render(a) + tail;
    match a
    case Bare(t) =>
      assert s[0] == t[0];
      ReadBare(t, tail);
    case Quoted(t) =>
      assert s[0] == '"' && s[1..] == t + "\"" + tail;
      ReadQuotedBody(t, tail);
  }

  /** Well-formed arguments joined by blanks are split back into exactly their texts. */
  lemma {:induction false} WordsOfJoinArgs(args: seq<Arg>)
    requires AllWellFormed(args)
    ensures Words(JoinArgs(args)) == Texts(args)
  {
    if |args| == 1 {
      WordsOfArg(args[0], []);
      assert Texts(args) == [args[0].text];
      assert Render(args[0]) + [] == Render(args[0]);
    } else if |args| > 1 {
      var rest := JoinArgs(args[1..]);
      WordsOfArg(args[0], " " + rest);
      assert Render(args[0]) + " " + rest == Render(args[0]) + (" " + rest);
      assert (" " + rest)[1..] == rest;
      WordsOfJoinArgs(args[1..]);
      assert Texts(args) == [args[0].text] + Texts(args[1..]);
    }
  }

  lemma TextsAppend(a: seq<Arg>, b: seq<Arg>)
    ensures Texts(a + b) == Texts(a) + Texts(b)
  {
  }

  /** Two arguments are written with one blank between them and read back as two words. */
  lemma ArgPair(a: Arg, b: Arg)
    ensures JoinArgs([a, b]) == Render(a) + " " + Render(b)
    ensures Texts([a, b]) == [a.text, b.text]
  {
    assert [a, b][1..] == [b];
  }

  lemma {:induction false} JoinArgsAppend(a: seq<Arg>, b: seq<Arg>)
    requires a != [] && b != []
    ensures JoinArgs(a + b) == JoinArgs(a) + " " + JoinArgs(b)
  {
    if |a| == 1 {
      assert (a + b)[1..] == b;
    } else {
      assert (a + b)[1..] == a[1..] + b;
      JoinArgsAppend(a[1..], b);
    }
  }

  /** Groups of arguments, each group written as one string (as the VM launcher's
      `cmd_parts` entries are), and the groups joined by blanks. */
  function RenderGroups(groups: seq<seq<Arg>>): seq<string> {
    if groups == [] then [] else [JoinArgs(groups[0])] + RenderGroups(groups[1..])
  }

  function Flatten(groups: seq<seq<Arg>>): seq<Arg> {
    if groups == [] then [] else groups[0] + Flatten(groups[1..])
  }

  lemma {:induction false} RenderGroupsAppend(a: seq<seq<Arg>>, b: seq<seq<Arg>>)
    ensures RenderGroups(a + b) == RenderGroups(a) + RenderGroups(b)
  {
    if a == [] {
      assert a + b == b;
    } else {
      assert (a + b)[1..] == a[1..] + b;
      RenderGroupsAppend(a[1..], b);
    }
  }

  /** Joining the written groups is writing all their arguments in order. */
  lemma {:induction false} JoinRenderGroups(groups: seq<seq<Arg>>)
    requires forall i :: 0 <= i < |groups| ==> groups[i] != []
    ensures Join(" ", RenderGroups(groups)) == JoinArgs(Flatten(groups))
  {
    if |groups| == 1 {
      assert Flatten(groups) == groups[0] + [];
      assert groups[0] + [] == groups[0];
    } else if |groups| > 1 {
      JoinRenderGroups(groups[1..]);
      assert Flatten(groups[1..]) != [] by {
        assert Flatten(groups[1..]) == groups[1] + Flatten(groups[2..]);
      }
      JoinArgsAppend(groups[0], Flatten(groups[1..]));
    }
  }

  lemma {:induction false} FlattenAppend(a: seq<seq<Arg>>, b: seq<seq<Arg>>)
    ensures Flatten(a + b) == Flatten(a) + Flatten(b)
  {
    if a == [] {
      assert a + b == b;
    } else {
      assert (a + b)[1..] == a[1..] + b;
      FlattenAppend(a[1..], b);
    }
  }

  /** Adding one more group of well-formed arguments adds its written form to the strings
      and its texts to the words. */
  lemma AddGroup(groups: seq<seq<Arg>>, g: seq<Arg>)
    requires AllWellFormed(g)
    ensures RenderGroups(groups + [g]) == RenderGroups(groups) + [JoinArgs(g)]
    ensures Flatten(groups + [g]) == Flatten(groups) + g
    ensures Texts(Flatten(groups + [g])) == Texts(Flatten(groups)) + Texts(g)
    ensures AllWellFormed(Flatten(groups)) ==> AllWellFormed(Flatten(groups + [g]))
  {
    RenderGroupsAppend(groups, [g]);
    FlattenAppend(groups, [g]);
    assert Flatten([g]) == g + [];
    assert g + [] == g;
    TextsAppend(Flatten(groups), g);
  }
}
