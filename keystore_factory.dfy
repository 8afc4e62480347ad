/**
 * The decision logic of the keystore command-line tool: the private-key
 * validator, the classification of an input line into a command, the retry loop
 * that reads a private key, and the command loop that runs until exit or quit.
 * Strings are sequences of Dafny characters, which are Unicode scalar values.
 */
module KeystoreFactory {
  import opened Wrappers

  // ---------------------------------------------------------------------------
  // Private-key validation

  /** `priKeyValid`; `None` stands for a Java `null`. */
  predicate PriKeyValid(priKey: Option<string>): (valid: bool)
    ensures valid <==> priKey.Some? && |priKey.value| == 64
  {
    if priKey == None || |priKey.value| == 0 then false
    else if |priKey.value| != 64 then false
    else true
  }

  /** The three rejections: a missing key, an empty key, and a key of the wrong length. */
  lemma PriKeyValidExactly(priKey: Option<string>)
    ensures priKey == None ==> !PriKeyValid(priKey)
    ensures priKey == Some([]) ==> !PriKeyValid(priKey)
    ensures priKey.Some? && |priKey.value| != 64 ==> !PriKeyValid(priKey)
  {
  }

  // ---------------------------------------------------------------------------
  // Trimming, splitting and lower-casing a line

  /** `String.trim` strips every code unit at or below U+0020. */
  predicate IsTrimmable(c: char)
  {
    c <= ' '
  }

  /** The regular-expression class `\s`: space, tab, line feed, vertical tab, form feed, carriage return. */
  predicate IsRegexSpace(c: char)
  {
    c as int in {0x20, 0x09, 0x0A, 0x0B, 0x0C, 0x0D}
  }

  /** The first half of `String.trim`: drops the leading characters at or below U+0020. */
  function TrimStart(s: string): (r: string)
    ensures |r| <= |s|
  {
    if s != [] && IsTrimmable(s[0]) then TrimStart(s[1..]) else s
  }

  /** The second half of `String.trim`: drops the trailing characters at or below U+0020. */
  function TrimEnd(s: string): (r: string)
    ensures |r| <= |s|
  {
    if s != [] && IsTrimmable(s[|s| - 1]) then TrimEnd(s[..|s| - 1]) else s
  }

  /** `TrimStart` removes a run of trimmable characters and stops at the first other one. */
  lemma {:induction false} TrimStartFacts(s: string)
    ensures TrimStart(s) == s[|s| - |TrimStart(s)|..]
    ensures forall i :: 0 <= i < |s| - |TrimStart(s)| ==> IsTrimmable(s[i])
    ensures TrimStart(s) == [] || !IsTrimmable(TrimStart(s)[0])
  {
    if s != [] && IsTrimmable(s[0]) {
      TrimStartFacts(s[1..]);
    }
  }

  /** `TrimEnd` removes a run of trimmable characters and stops at the last other one. */
  lemma {:induction false} TrimEndFacts(s: string)
    ensures TrimEnd(s) == s[..|TrimEnd(s)|]
    ensures forall i :: |TrimEnd(s)| <= i < |s| ==> IsTrimmable(s[i])
    ensures TrimEnd(s) == [] || !IsTrimmable(TrimEnd(s)[|TrimEnd(s)| - 1])
  {
    if s != [] && IsTrimmable(s[|s| - 1]) {
      TrimEndFacts(s[..|s| - 1]);
    }
  }

  /**
   * `String.trim`. The result is empty exactly when every character of the
   * line is at or below U+0020; otherwise it starts and ends with a character
   * above it, and a line that already does is returned as it is.
   */
  function Trim(s: string): (r: string)
    ensures r == [] <==> forall i :: 0 <= i < |s| ==> IsTrimmable(s[i])
    ensures r == [] || (!IsTrimmable(r[0]) && !IsTrimmable(r[|r| - 1]))
    ensures s == [] || (!IsTrimmable(s[0]) && !IsTrimmable(s[|s| - 1])) ==> r == s
  {
    var t := TrimStart(s);
    TrimStartFacts(s);
    TrimEndFacts(t);
    assert t != [] ==> TrimEnd(t) != [] && TrimEnd(t)[0] == t[0];
    TrimEnd(t)
  }

  /** `split("\\s+")[0]` on a string that does not start with `\s`: the characters before the first `\s`. */
  function FirstToken(s: string): (r: string)
    ensures |r| <= |s|
  {
    if s == [] || IsRegexSpace(s[0]) then [] else [s[0]] + FirstToken(s[1..])
  }

  /** The first token is the longest prefix free of `\s`: it ends at the first `\s`, or at the end of the string. */
  lemma {:induction false} FirstTokenFacts(s: string)
    ensures FirstToken(s) == s[..|FirstToken(s)|]
    ensures forall i :: 0 <= i < |FirstToken(s)| ==> !IsRegexSpace(s[i])
    ensures |FirstToken(s)| < |s| ==> IsRegexSpace(s[|FirstToken(s)|])
  {
    if s != [] && !IsRegexSpace(s[0]) {
      FirstTokenFacts(s[1..]);
    }
  }

  /**
   * The first word of a trimmed input line: the command, or the typed private
   * key. It is empty exactly when the line is blank, and otherwise starts with
   * a character above U+0020.
   */
  function FirstWord(line: string): (word: string)
    ensures word == [] <==> forall i :: 0 <= i < |line| ==> IsTrimmable(line[i])
    ensures word == [] || !IsTrimmable(word[0])
  {
    FirstToken(Trim(line))
  }

  /**
   * `toLowerCase` on the characters whose lower case is an ASCII letter: the
   * ASCII capitals and U+212A KELVIN SIGN, which becomes `k`. Every other
   * character is kept.
   */
  function LowerChar(c: char): (lower: char)
    ensures 'A' <= c <= 'Z' ==> lower as int == c as int + 32
    ensures lower != c ==> ('A' <= c <= 'Z' || c == '\U{212A}') && 'a' <= lower <= 'z'
  {
    if 'A' <= c <= 'Z' then (c as int + 32) as char
    else if c == '\U{212A}' then 'k'
    else c
  }

  /** `String.toLowerCase`, character by character. */
  function Lower(s: string): (r: string)
    ensures |r| == |s|
  {
    if s == [] then [] else [LowerChar(s[0])] + Lower(s[1..])
  }

  /** Lower-casing never turns a character into, or out of, one that `trim` strips or `\s` matches. */
  lemma LowerCharKeepsClass(c: char)
    ensures IsTrimmable(LowerChar(c)) == IsTrimmable(c)
    ensures IsRegexSpace(LowerChar(c)) == IsRegexSpace(c)
  {
  }

  lemma {:induction false} LowerAt(s: string, i: nat)
    requires i < |s|
    ensures Lower(s)[i] == LowerChar(s[i])
  {
    if i > 0 {
      LowerAt(s[1..], i - 1);
    }
  }

  lemma {:induction false} LowerTake(s: string, n: nat)
    requires n <= |s|
    ensures Lower(s[..n]) == Lower(s)[..n]
  {
    if n > 0 {
      assert s[..n][0] == s[0];
      assert s[..n][1..] == s[1..][..n - 1];
      LowerTake(s[1..], n - 1);
    }
  }

  lemma {:induction false} LowerTrimStart(s: string)
    ensures Lower(TrimStart(s)) == TrimStart(Lower(s))
  {
    if s != [] {
      LowerCharKeepsClass(s[0]);
      if IsTrimmable(s[0]) {
        LowerTrimStart(s[1..]);
      }
    }
  }

  lemma {:induction false} LowerTrimEnd(s: string)
    ensures Lower(TrimEnd(s)) == TrimEnd(Lower(s))
  {
    if s != [] {
      var n := |s| - 1;
      LowerAt(s, n);
      LowerCharKeepsClass(s[n]);
      if IsTrimmable(s[n]) {
        LowerTake(s, n);
        LowerTrimEnd(s[..n]);
      }
    }
  }

  lemma {:induction false} LowerFirstToken(s: string)
    ensures Lower(FirstToken(s)) == FirstToken(Lower(s))
  {
    if s != [] {
      LowerCharKeepsClass(s[0]);
      if !IsRegexSpace(s[0]) {
        LowerFirstToken(s[1..]);
        var w := FirstToken(s[1..]);
        assert ([s[0]] + w)[0] == s[0];
        assert ([s[0]] + w)[1..] == w;
      }
    }
  }

  /** Lower-casing a line and taking its first word commute. */
  lemma LowerFirstWord(line: string)
    ensures Lower(FirstWord(line)) == FirstWord(Lower(line))
  {
    LowerTrimStart(line);
    LowerTrimEnd(TrimStart(line));
    LowerFirstToken(Trim(line));
  }

  // ---------------------------------------------------------------------------
  // Classifying a line

  datatype Command = Blank | Help | GenKeystore | ImportPrivateKey | GenKeyPair | Exit | Invalid(cmd: string)

  /** The `switch` on a lower-cased word: `None` for the default branch, never a blank or unknown command otherwise. */
  function Keyword(lower: string): (r: Option<Command>)
    ensures r == Some(Exit) <==> lower == "exit" || lower == "quit"
    ensures r.Some? ==> !r.value.Blank? && !r.value.Invalid?
  {
    if lower == "help" then Some(Help)
    else if lower == "genkeystore" then Some(GenKeystore)
    else if lower == "importprivatekey" then Some(ImportPrivateKey)
    else if lower == "genkeypair" then Some(GenKeyPair)
    else if lower == "exit" || lower == "quit" then Some(Exit)
    else None
  }

  /**
   * The command a line selects: its first word, skipped when empty, lower-cased
   * and switched on. A line is skipped exactly when it is blank; an unknown
   * command is reported as typed.
   */
  function Classify(line: string): (c: Command)
    ensures c == Blank <==> forall i :: 0 <= i < |line| ==> IsTrimmable(line[i])
    ensures c.Invalid? ==> c.cmd == FirstWord(line) != []
  {
    var cmd := FirstWord(line);
    if cmd == "" then Blank
    else match Keyword(Lower(cmd))
      case Some(c) => c
      case None => Invalid(cmd)
  }

  /** A string with no `\s` is its own first token. */
  lemma {:induction false} TokenWithoutSpace(s: string)
    requires forall i :: 0 <= i < |s| ==> !IsRegexSpace(s[i])
    ensures FirstToken(s) == s
  {
    if s != [] {
      TokenWithoutSpace(s[1..]);
      assert [s[0]] + s[1..] == s;
    }
  }

  /** The line `gen\U{212A}eypair` typed with U+212A KELVIN SIGN in place of `k`. */
  const KelvinGenKeyPair: string := "gen\U{212A}eypair"

  lemma KelvinLineIsOneWord()
    ensures FirstWord(KelvinGenKeyPair) == KelvinGenKeyPair
  {
    var line := KelvinGenKeyPair;
    assert Trim(line) == line;
    TokenWithoutSpace(line);
  }

  lemma KelvinLineLowerCase()
    ensures Lower(KelvinGenKeyPair) == "genkeypair"
  {
    var line := KelvinGenKeyPair;
    LowerAt(line, 0); LowerAt(line, 1); LowerAt(line, 2); LowerAt(line, 3); LowerAt(line, 4);
    LowerAt(line, 5); LowerAt(line, 6); LowerAt(line, 7); LowerAt(line, 8); LowerAt(line, 9);
  }

  lemma KeywordOfGenKeyPair()
    ensures Keyword("genkeypair") == Some(GenKeyPair)
  {
  }

  /** U+212A KELVIN SIGN lower-cases to `k`, so this line selects `genkeypair`. */
  lemma KelvinSignSelectsGenKeyPair()
    ensures Classify(KelvinGenKeyPair) == GenKeyPair
  {
    KelvinLineIsOneWord();
    KelvinLineLowerCase();
    KeywordOfGenKeyPair();
  }

  /** Two lines equal up to case select the same command; an unknown word stays unknown. */
  lemma CaseInsensitive(line: string, other: string)
    requires Lower(line) == Lower(other)
    ensures Classify(line).Invalid? <==> Classify(other).Invalid?
    ensures !Classify(line).Invalid? ==> Classify(line) == Classify(other)
  {
    LowerFirstWord(line);
    LowerFirstWord(other);
    assert Lower(FirstWord(line)) == Lower(FirstWord(other));
    assert FirstWord(line) == [] <==> FirstWord(other) == [];
  }

  // ---------------------------------------------------------------------------
  // Reading lines

  /** What the tool takes from an input line: the command it selects, and its first word (the typed key when a key is asked for). */
  datatype Line = Line(command: Command, word: string)

  /** Trims and splits one line. */
  function ReadLine(line: string): (l: Line)
    ensures l.word == [] <==> l.command == Blank
  {
    Line(Classify(line), FirstWord(line))
  }

  /** Every line of the input, read. */
  function ReadLines(lines: seq<string>): (ls: seq<Line>)
    ensures |ls| == |lines|
  {
    seq(|lines|, j requires 0 <= j < |lines| => ReadLine(lines[j]))
  }

  // ---------------------------------------------------------------------------
  // Reading a private key

  /** The first word of the line is a valid private key. */
  predicate IsKeyLine(l: Line)
  {
    PriKeyValid(Some(l.word))
  }

  /** First index at or after `from` whose first word is a valid private key. */
  function FindKey(ls: seq<Line>, from: nat): (r: Option<nat>)
    requires from <= |ls|
    ensures r.Some? ==> from <= r.value < |ls| && IsKeyLine(ls[r.value])
    ensures forall j :: from <= j < (if r.Some? then r.value else |ls|) ==> !IsKeyLine(ls[j])
    decreases |ls| - from
  {
    if from == |ls| then None
    else if IsKeyLine(ls[from]) then Some(from)
    else FindKey(ls, from + 1)
  }

  /**
   * The retry loop of `importPrivatekey`: reads lines from `from` on until the
   * first word of one is a valid key, and answers its index; `None` when the
   * input runs out first.
   */
  method ReadPrivateKey(lines: seq<string>, from: nat) returns (r: Option<nat>)
    requires from <= |lines|
    ensures r == FindKey(ReadLines(lines), from)
  {
    ghost var ls := ReadLines(lines);
    var i := from;
    while i < |lines|
      invariant from <= i <= |lines|
      invariant FindKey(ls, i) == FindKey(ls, from)
      decreases |lines| - i
    {
      var privateKey := FirstWord(lines[i]);
      assert ls[i].word == privateKey;
      if PriKeyValid(Some(privateKey)) {
        return Some(i);
      }
      i := i + 1;
    }
    return None;
  }

  // ---------------------------------------------------------------------------
  // The command loop

  /** What the tool does in answer to a line; the key generation and file writing themselves are not modelled. */
  datatype Effect =
    | ShowHelp
    | GenKeystoreRun
    | ImportKey(key: string)
    | ImportAborted
    | GenKeyPairRun
    | InvalidCmd(cmd: string)
    | ExitMsg

  /** The effects of a run, how many lines it read, and whether it stopped on exit or quit. */
  datatype Session = Session(effects: seq<Effect>, consumed: nat, exited: bool)

  /** The effects `effects` followed by a run that continues as `rest`. */
  function Then(effects: seq<Effect>, rest: Session): (s: Session)
    ensures s.consumed == rest.consumed && s.exited == rest.exited
  {
    Session(effects + rest.effects, rest.consumed, rest.exited)
  }

  /** What one pass of the loop body does: its effects, the next line to read, and whether it returns. */
  datatype Turn = Turn(effects: seq<Effect>, next: nat, stop: bool)

  /**
   * One pass of the loop body on line `i`. A blank line is skipped; an unknown
   * word prints "Invalid cmd" and the help; an import reads lines until a valid
   * key or the end of input (the exception it then raises is caught, and the
   * loop finds no further line). Only exit or quit return.
   */
  function Respond(ls: seq<Line>, i: nat): (t: Turn)
    requires i < |ls|
    ensures i < t.next <= |ls|
    ensures t.stop <==> ls[i].command == Exit
    ensures t.stop ==> t.next == i + 1
  {
    match ls[i].command
    case Blank => Turn([], i + 1, false)
    case Help => Turn([ShowHelp], i + 1, false)
    case GenKeystore => Turn([GenKeystoreRun], i + 1, false)
    case ImportPrivateKey =>
      (match FindKey(ls, i + 1)
       case None => Turn([ImportAborted], |ls|, false)
       case Some(j) => Turn([ImportKey(ls[j].word)], j + 1, false))
    case GenKeyPair => Turn([GenKeyPairRun], i + 1, false)
    case Exit => Turn([ExitMsg], i + 1, true)
    case Invalid(cmd) => Turn([InvalidCmd(cmd), ShowHelp], i + 1, false)
  }

  /** The command loop from line `i` on, until it returns or the input ends. */
  function Dispatch(ls: seq<Line>, i: nat): (s: Session)
    requires i <= |ls|
    ensures i <= s.consumed <= |ls|
    ensures !s.exited ==> s.consumed == |ls|
    decreases |ls| - i
  {
    if i == |ls| then Session([], i, false)
    else
      var t := Respond(ls, i);
      if t.stop then Session(t.effects, t.next, true)
      else Then(t.effects, Dispatch(ls, t.next))
  }

  /** Only exit or quit end the loop early: when it returns, the last line it read selects one of them. */
  lemma {:induction false} StopsOnlyOnExit(ls: seq<Line>, i: nat)
    requires i <= |ls|
    ensures var s := Dispatch(ls, i);
            s.exited ==> i < s.consumed && ls[s.consumed - 1].command == Exit
    decreases |ls| - i
  {
    if i < |ls| {
      var t := Respond(ls, i);
      if !t.stop {
        StopsOnlyOnExit(ls, t.next);
      }
    }
  }

  /** Without an exit or quit line the loop reads the whole input. */
  lemma NoExitReadsAll(ls: seq<Line>, i: nat)
    requires i <= |ls|
    requires forall j :: i <= j < |ls| ==> ls[j].command != Exit
    ensures !Dispatch(ls, i).exited && Dispatch(ls, i).consumed == |ls|
  {
    StopsOnlyOnExit(ls, i);
  }

  /** Every key the loop imports passed the validator, so it is 64 characters long. */
  lemma {:induction false} ImportedKeysValid(ls: seq<Line>, i: nat)
    requires i <= |ls|
    ensures forall e :: e in Dispatch(ls, i).effects && e.ImportKey? ==> PriKeyValid(Some(e.key)) && |e.key| == 64
    decreases |ls| - i
  {
    if i < |ls| {
      var t := Respond(ls, i);
      if ls[i].command == ImportPrivateKey {
        var r := FindKey(ls, i + 1);
        assert r.Some? ==> t.effects == [ImportKey(ls[r.value].word)];
      }
      if !t.stop {
        ImportedKeysValid(ls, t.next);
      }
    }
  }

  /** Running a turn that does not return continues the run from the line after it. */
  lemma ThenTurn(effects: seq<Effect>, ls: seq<Line>, i: nat)
    requires i < |ls| && !Respond(ls, i).stop
    ensures Then(effects, Dispatch(ls, i))
         == Then(effects + Respond(ls, i).effects, Dispatch(ls, Respond(ls, i).next))
  {
    var t := Respond(ls, i);
    var rest := Dispatch(ls, t.next);
    assert Dispatch(ls, i) == Then(t.effects, rest);
    assert effects + (t.effects + rest.effects) == (effects + t.effects) + rest.effects;
  }

  /** The body of the loop in `run` on line `i`: trims and splits the line, then switches on the lower-cased command. */
  method RunTurn(lines: seq<string>, i: nat) returns (effects: seq<Effect>, next: nat, stop: bool)
    requires i < |lines|
    ensures Turn(effects, next, stop) == Respond(ReadLines(lines), i)
  {
    ghost var ls := ReadLines(lines);
    var cmd := Classify(lines[i]);
    assert ls[i].command == cmd;
    match cmd
    case Blank =>
      effects, next, stop := [], i + 1, false;
    case Help =>
      effects, next, stop := [ShowHelp], i + 1, false;
    case GenKeystore =>
      effects, next, stop := [GenKeystoreRun], i + 1, false;
    case ImportPrivateKey =>
      var found := ReadPrivateKey(lines, i + 1);
      if found == None {
        effects, next, stop := [ImportAborted], |lines|, false;
      } else {
        var key := FirstWord(lines[found.value]);
        assert ls[found.value].word == key;
        effects, next, stop := [ImportKey(key)], found.value + 1, false;
      }
    case GenKeyPair =>
      effects, next, stop := [GenKeyPairRun], i + 1, false;
    case Exit =>
      effects, next, stop := [ExitMsg], i + 1, true;
    case Invalid(word) =>
      effects, next, stop := [InvalidCmd(word), ShowHelp], i + 1, false;
  }

  /** `run`: shows the help, then runs the loop body line after line until exit, quit or the end of input. */
  method Run(lines: seq<string>) returns (s: Session)
    ensures s == Then([ShowHelp], Dispatch(ReadLines(lines), 0))
  {
    ghost var ls := ReadLines(lines);
    var effects := [ShowHelp];
    var i := 0;
    while i < |lines|
      invariant 0 <= i <= |lines|
      invariant Then([ShowHelp], Dispatch(ls, 0)) == Then(effects, Dispatch(ls, i))
      decreases |lines| - i
    {
      var turn, next, stop := RunTurn(lines, i);
      if stop {
        return Session(effects + turn, next, true);
      }
      ThenTurn(effects, ls, i);
      effects, i := effects + turn, next;
    }
    s := Session(effects, i, false);
  }
}
