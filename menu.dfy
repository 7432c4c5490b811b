/**
 * The console loop of `main` in src/api/main.go: a menu of five choices
 * read one line at a time. Its state is the loaded byte buffer (a pointer
 * that starts nil) and whether the loop is still running.
 */
module Menu {
  import opened Wrappers
  import opened MachineInt
  import opened GoStrings
  import opened NativeSquare
  import opened Utils

  /** The five menu entries. */
  datatype Choice = PrintGreeting | SquareNumber | ReconstructFile | LoadAndModifyBuffer | Exit

  /** The number the menu shows for each entry. */
  function ChoiceNumber(c: Choice): (k: int)
    ensures 1 <= k <= 5
  {
    match c
    case PrintGreeting => 1
    case SquareNumber => 2
    case ReconstructFile => 3
    case LoadAndModifyBuffer => 4
    case Exit => 5
  }

  /** The entry a menu line selects, if any: the one whose number the trimmed line spells. */
  function ParseChoice(line: string): (r: Option<Choice>)
    ensures r.Some? ==> Atoi(TrimSpace(line)) == Some(ChoiceNumber(r.value))
  {
    match Atoi(TrimSpace(line))
    case None => None
    case Some(k) =>
      if k == 1 then Some(PrintGreeting)
      else if k == 2 then Some(SquareNumber)
      else if k == 3 then Some(ReconstructFile)
      else if k == 4 then Some(LoadAndModifyBuffer)
      else if k == 5 then Some(Exit)
      else None
  }

  /**
   * A menu line is accepted exactly when its text, trimmed of white space,
   * parses as an integer from 1 to 5.
   */
  lemma ParseChoiceAccepts(line: string)
    ensures var k := Atoi(TrimSpace(line));
            ParseChoice(line).Some? <==> k.Some? && 1 <= k.value <= 5
  {
  }

  /** Typing an entry's number, surrounded by any white space, selects that entry. */
  lemma ParseChoiceOfNumber(c: Choice, pre: string, post: string)
    requires forall i :: 0 <= i < |pre| ==> IsSpace(pre[i])
    requires forall i :: 0 <= i < |post| ==> IsSpace(post[i])
    ensures ParseChoice(pre + Itoa(ChoiceNumber(c)) + post) == Some(c)
  {
    var t := Itoa(ChoiceNumber(c));
    assert t == [DigitChar(ChoiceNumber(c))];
    TrimSpaceOfPadded(pre, t, post);
    AtoiItoa(ChoiceNumber(c));
  }

  /** Text that is not a number, and numbers outside 1..5, are refused. */
  lemma ParseChoiceRejects()
    ensures ParseChoice("abc") == None
    ensures ParseChoice("0") == None
    ensures ParseChoice("6") == None
    ensures ParseChoice("") == None
  {
  }

  // ---------------------------------------------------------------------
  // The loop as a state machine
  // ---------------------------------------------------------------------

  /** The loop's state: the bytes `loadedString` points to (None while nil), and whether it runs. */
  datatype MenuState = MenuState(loaded: Option<seq<byte>>, running: bool)

  const Start: MenuState := MenuState(None, true)

  /**
   * One parsed line of input. A refused line changes nothing; entry 4
   * loads and edits the buffer; entry 5 stops the loop; entries 1 to 3 act
   * only on the console and the file system. Once stopped, nothing changes.
   */
  function Step(s: MenuState, c: Option<Choice>): (t: MenuState)
    requires s.loaded.Some? ==> EditIndex < |s.loaded.value|
    ensures !s.running ==> t == s
    ensures s.running ==> (t.running <==> c != Some(Exit))
    ensures c != Some(LoadAndModifyBuffer) ==> t.loaded == s.loaded
    ensures s.running && c == Some(LoadAndModifyBuffer) ==> t.loaded == Some(LoadAndModify(s.loaded))
  {
    if !s.running then s
    else
      match c
      case None => s
      case Some(LoadAndModifyBuffer) => s.(loaded := Some(LoadAndModify(s.loaded)))
      case Some(Exit) => s.(running := false)
      case Some(other) => s
  }

  /** The entries the given lines select, line by line. */
  function ParseLines(lines: seq<string>): (cs: seq<Option<Choice>>)
    ensures |cs| == |lines|
  {
    if lines == [] then []
    else ParseLines(lines[..|lines| - 1]) + [ParseChoice(lines[|lines| - 1])]
  }

  /** Each line is parsed on its own. */
  lemma {:induction false} ParseLinesAt(lines: seq<string>, i: nat)
    requires i < |lines|
    ensures ParseLines(lines)[i] == ParseChoice(lines[i])
    decreases |lines|
  {
    if i < |lines| - 1 {
      var init := lines[..|lines| - 1];
      ParseLinesAt(init, i);
    }
  }

  /** Parsing a prefix of the input gives a prefix of the parsed input. */
  lemma {:induction false} ParseLinesPrefix(lines: seq<string>, k: nat)
    requires k <= |lines|
    ensures ParseLines(lines[..k]) == ParseLines(lines)[..k]
    decreases |lines|
  {
    if k < |lines| {
      var init := lines[..|lines| - 1];
      ParseLinesPrefix(init, k);
      assert init[..k] == lines[..k];
    } else {
      assert lines[..k] == lines;
    }
  }

  /**
   * The state after the given parsed lines, starting from a nil buffer.
   * Whatever the input, the buffer is either still nil or holds the edited
   * seed.
   */
  function Run(cs: seq<Option<Choice>>): (s: MenuState)
    ensures s.loaded == None || s.loaded == Some(LoadAndModify(None))
  {
    if cs == [] then Start
    else
      var before := Run(cs[..|cs| - 1]);
      LoadAndModifyIdempotent(None);
      Step(before, cs[|cs| - 1])
  }

  /** So the buffer, once loaded, always reads "BascomZunter". */
  lemma RunLoadsBascomZunter(cs: seq<Option<Choice>>)
    ensures Run(cs).loaded == None || Run(cs).loaded == Some(AsciiBytes("BascomZunter"))
  {
    FreshLoadIsBascomZunter();
  }

  /** Lines that come after the exit entry change nothing. */
  lemma {:induction false} StoppedStaysStopped(cs: seq<Option<Choice>>, more: seq<Option<Choice>>)
    requires !Run(cs).running
    ensures Run(cs + more) == Run(cs)
    decreases |more|
  {
    if more != [] {
      var init := more[..|more| - 1];
      StoppedStaysStopped(cs, init);
      assert (cs + more)[..|cs + more| - 1] == cs + init;
    } else {
      assert cs + more == cs;
    }
  }

  /** So once the loop has stopped, the rest of the input is ignored. */
  lemma StoppedIgnoresRest(cs: seq<Option<Choice>>, k: nat)
    requires k <= |cs| && !Run(cs[..k]).running
    ensures Run(cs) == Run(cs[..k])
  {
    StoppedStaysStopped(cs[..k], cs[k..]);
    assert cs[..k] + cs[k..] == cs;
  }

  /** While the loop runs, it was running after every shorter part of the input too. */
  lemma RunningPrefix(cs: seq<Option<Choice>>, k: nat)
    requires k <= |cs| && Run(cs).running
    ensures Run(cs[..k]).running
  {
    if !Run(cs[..k]).running {
      StoppedIgnoresRest(cs, k);
    }
  }

  /** The loop stops exactly when the exit entry has been chosen. */
  lemma {:induction false} RunStoppedIff(cs: seq<Option<Choice>>)
    ensures !Run(cs).running <==> Some(Exit) in cs
  {
    if cs != [] {
      var init := cs[..|cs| - 1];
      RunStoppedIff(init);
      assert cs == init + [cs[|cs| - 1]];
    }
  }

  /** The buffer is loaded exactly when entry 4 was chosen before the loop stopped. */
  lemma {:induction false} RunLoadedIff(cs: seq<Option<Choice>>)
    ensures Run(cs).loaded.Some? <==>
            exists i :: 0 <= i < |cs| && cs[i] == Some(LoadAndModifyBuffer) && Run(cs[..i]).running
  {
    if cs != [] {
      var init := cs[..|cs| - 1];
      RunLoadedIff(init);
      forall i | 0 <= i < |init|
        ensures init[i] == cs[i] && init[..i] == cs[..i]
      {
      }
      assert cs[..|cs| - 1] == init;
    }
  }

  /** Entry 4 on a fresh start loads the seed and edits it. */
  lemma FirstEditShowsBascomZunter()
    ensures Run(ParseLines(["4"])).loaded == Some(AsciiBytes("BascomZunter"))
  {
    ParseChoiceOfNumber(LoadAndModifyBuffer, "", "");
    assert ParseLines(["4"]) == [Some(LoadAndModifyBuffer)];
    assert [Some(LoadAndModifyBuffer)][..0] == [];
    FreshLoadIsBascomZunter();
  }

  /**
   * `callCSquareFunction`, entry 2: the number line trimmed and parsed,
   * then squared across the native boundary.
   */
  function ConsoleSquare(numberLine: string): (out: string)
    ensures out == "Invalid input. Please enter an integer.\n" <==> Atoi(TrimSpace(numberLine)).None?
    ensures var v := Atoi(TrimSpace(numberLine));
            v.Some? ==> out == "The square of " + Itoa(v.value) + " is " + Itoa(SquareOf(v.value)) + ".\n"
  {
    match Atoi(TrimSpace(numberLine))
    case None => "Invalid input. Please enter an integer.\n"
    case Some(n) =>
      var out := "The square of " + Itoa(n) + " is " + Itoa(SquareOf(n)) + ".\n";
      assert out[0] == 'T';
      out
  }

  /**
   * A number typed with any surrounding white space (the line's own
   * newline included) is echoed with its square, exactly so when the
   * square fits in 32 bits.
   */
  lemma ConsoleSquareOfPadded(n: Int64, pre: string, post: string)
    requires forall i :: 0 <= i < |pre| ==> IsSpace(pre[i])
    requires forall i :: 0 <= i < |post| ==> IsSpace(post[i])
    ensures ConsoleSquare(pre + Itoa(n) + post) == "The square of " + Itoa(n) + " is " + Itoa(SquareOf(n)) + ".\n"
    ensures -46340 <= n <= 46340 ==>
            ConsoleSquare(pre + Itoa(n) + post) == "The square of " + Itoa(n) + " is " + Itoa(n * n) + ".\n"
  {
    var t := Itoa(n);
    var digits := NatDigits(if n < 0 then -(n as int) else n);
    assert IsDigit(digits[0]) && IsDigit(digits[|digits| - 1]);
    assert t[|t| - 1] == digits[|digits| - 1];
    TrimSpaceOfPadded(pre, t, post);
    AtoiItoa(n);
  }

  /** A word, an empty line and a number with an inner space are all refused. */
  lemma ConsoleSquareRefuses()
    ensures ConsoleSquare("abc\n") == "Invalid input. Please enter an integer.\n"
    ensures ConsoleSquare("\n") == "Invalid input. Please enter an integer.\n"
    ensures ConsoleSquare("1 2\n") == "Invalid input. Please enter an integer.\n"
  {
    assert "abc\n"[..3] == "abc" && "1 2\n"[..3] == "1 2" && "\n"[..0] == "";
    assert TrimSpace("abc\n") == "abc";
    assert TrimSpace("\n") == "";
    assert TrimSpace("1 2\n") == "1 2";
    assert "1 2"[..2] == "1 ";
    assert ParseDigits("1 2") == None;
    assert Atoi("abc") == None && Atoi("") == None && Atoi("1 2") == None;
  }

  // ---------------------------------------------------------------------
  // The loop itself
  // ---------------------------------------------------------------------

  /** The contents of the buffer a (possibly nil) pointer designates. */
  function View(a: array?<byte>): Option<seq<byte>>
    reads a
  {
    if a == null then None else Some(a[..])
  }

  /** Running one more parsed line is one more Step. */
  lemma RunSnoc(cs: seq<Option<Choice>>, i: nat)
    requires i < |cs|
    ensures Run(cs[..i + 1]) == Step(Run(cs[..i]), cs[i])
  {
    assert cs[..i + 1][..i] == cs[..i];
  }

  /**
   * One pass of the loop body: the line is trimmed and converted, a
   * refused line is reported and skipped, and the switch runs the chosen
   * entry. The buffer and the decision to stop are those of one Step.
   */
  method HandleLine(line: string, loadedString: array?<byte>) returns (loadedString': array?<byte>, exit: bool)
    requires loadedString != null ==> EditIndex < loadedString.Length
    modifies loadedString
    ensures loadedString' != null ==> EditIndex < loadedString'.Length
    ensures loadedString != null ==> loadedString' == loadedString
    ensures loadedString == null && loadedString' != null ==> fresh(loadedString')
    ensures View(loadedString') == Step(MenuState(old(View(loadedString)), true), ParseChoice(line)).loaded
    ensures exit <==> !Step(MenuState(old(View(loadedString)), true), ParseChoice(line)).running
  {
    loadedString' := loadedString;
    exit := false;
    match ParseChoice(line)
    case None =>
    case Some(LoadAndModifyBuffer) =>
      var shownBefore, shownAfter;
      loadedString', shownBefore, shownAfter := LoadAndModifyString(loadedString);
    case Some(Exit) =>
      exit := true;
    case Some(other) =>
  }

  /**
   * The pass that reads line `i` of the input, while the lines before it
   * have left the loop running: it takes the state machine one step
   * further along the parsed input, and stops exactly on the exit entry.
   */
  method HandleNextLine(lines: seq<string>, i: nat, loadedString: array?<byte>) returns (loadedString': array?<byte>, exit: bool)
    requires i < |lines|
    requires loadedString != null ==> EditIndex < loadedString.Length
    requires Run(ParseLines(lines)[..i]).running
    requires View(loadedString) == Run(ParseLines(lines)[..i]).loaded
    modifies loadedString
    ensures loadedString' != null ==> EditIndex < loadedString'.Length
    ensures loadedString != null ==> loadedString' == loadedString
    ensures loadedString == null && loadedString' != null ==> fresh(loadedString')
    ensures View(loadedString') == Run(ParseLines(lines)[..i + 1]).loaded
    ensures exit <==> ParseLines(lines)[i] == Some(Exit)
    ensures Run(ParseLines(lines)[..i + 1]).running <==> !exit
  {
    loadedString', exit := HandleLine(lines[i], loadedString);
    ParseLinesAt(lines, i);
    RunSnoc(ParseLines(lines), i);
  }

  /**
   * The menu loop over the lines typed in. It stops after the exit entry,
   * or when the input is used up. `consumed` lines were read, and the
   * entries of those lines are the first `consumed` parsed entries (see
   * ParseLinesPrefix). The buffer it ends with is the one the state
   * machine predicts. Every line before the last one read left the loop
   * running, and when it stops early that last line is the exit entry.
   */
  method MenuLoop(lines: seq<string>) returns (loadedString: array?<byte>, consumed: nat)
    ensures consumed <= |lines|
    ensures consumed < |lines| ==> !Run(ParseLines(lines)[..consumed]).running
    ensures Run(ParseLines(lines)[..consumed]) == Run(ParseLines(lines))
    ensures View(loadedString) == Run(ParseLines(lines)).loaded
    ensures consumed == |lines| ||
            (0 < consumed && ParseLines(lines)[consumed - 1] == Some(Exit) &&
             Run(ParseLines(lines)[..consumed - 1]).running)
    ensures 0 < consumed ==> Run(ParseLines(lines)[..consumed - 1]).running
  {
    loadedString := null;
    consumed := 0;
    ghost var cs := ParseLines(lines);
    while consumed < |lines|
      invariant consumed <= |lines|
      invariant loadedString != null ==> fresh(loadedString) && EditIndex < loadedString.Length
      invariant Run(cs[..consumed]).running
      invariant View(loadedString) == Run(cs[..consumed]).loaded
      decreases |lines| - consumed
    {
      var exit;
      loadedString, exit := HandleNextLine(lines, consumed, loadedString);
      consumed := consumed + 1;
      if exit {
        StoppedIgnoresRest(cs, consumed);
        return;
      }
    }
    assert cs[..consumed] == cs;
    if 0 < consumed {
      RunningPrefix(cs, consumed - 1);
    }
  }
}
