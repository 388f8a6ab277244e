/** The token handling `main` in sh.c performs on each input line, between
    reading it and handing the command to `run_command`: tokenizing, the
    trailing `&`, the no-command test, `check_redirects` and the compaction
    of the surviving tokens into `cmd_arg`. */
module CommandLine {
  import opened Wrappers
  import opened Tokenizer
  import opened Redirects

  /** Every token present, in order, as the token array first holds them. */
  function Wrap(ts: seq<string>): (r: seq<Option<string>>)
    ensures |r| == |ts| && forall k :: 0 <= k < |ts| ==> r[k] == Some(ts[k])
  {
    seq(|ts|, k requires 0 <= k < |ts| => Some(ts[k]))
  }

  /** The strings of an array segment that holds no NULL. */
  function Unwrap(s: seq<Option<string>>): (r: seq<string>)
    requires forall k :: 0 <= k < |s| ==> s[k].Some?
    ensures |r| == |s| && forall k :: 0 <= k < |s| ==> s[k] == Some(r[k])
  {
    seq(|s|, k requires 0 <= k < |s| && s[k].Some? => s[k].value)
  }

  /** The test at sh.c:640: the first token starts with `<` or `>` and at
      most two tokens are left. */
  predicate NoCommand(first: string, numTokens: nat) {
    |first| > 0 && (first[0] == '<' || first[0] == '>') && numTokens <= 2
  }

  /** What becomes of a line. */
  datatype Parsed =
    | Blank                          // nothing but blanks: the loop starts over
    | Refused                        // "ERROR - No command."
    | BadRedirect(error: RedirectError)
    | Command(args: seq<string>, redir: Redirection, background: bool)

  /** The tokens left once a trailing `&` is stripped, and the background
      flag. */
  function StripAmpersand(toks: seq<string>): (seq<string>, bool)
    requires |toks| > 0
  {
    if toks[|toks| - 1] == "&" then (toks[..|toks| - 1], true) else (toks, false)
  }

  /** All of the per-line processing on one line.  A line whose only
      token is `&` is excluded: sh.c then reads the first token after
      clearing it. */
  function Parse(line: string): Parsed
    requires Tokens(line) != ["&"]
  {
    var toks := Tokens(line);
    if toks == [] then Blank
    else
      var (words, background) := StripAmpersand(toks);
      if NoCommand(words[0], |words|) then Refused
      else
        match Scan(words, 0, NoRedirection)
        case Err(e) => BadRedirect(e)
        case Ok(sc) => Command(Present(sc.slots), sc.redir, background)
  }

  /** The per-line state of `main`: the token array and its live length, the
      background flag, the three redirection flags with the filename slots,
      and the argument array built from what survives. */
  class LineParser {
    const alltok: array<Option<string>>
    var numTokens: nat
    var background: bool
    var redirectInput: bool
    var redirectOutput: bool
    var redirectAppend: bool
    const redirectArr: array<Option<string>>
    var cmdArg: array<Option<string>>
    var numArgs: nat

    /** The flags agree with the filename slots. */
    ghost predicate Valid()
      reads this, redirectArr
    {
      && redirectArr.Length == 3
      && alltok != redirectArr
      && numTokens <= alltok.Length
      && (redirectInput <==> redirectArr[0].Some?)
      && (redirectOutput <==> redirectArr[1].Some?)
      && (redirectAppend <==> redirectArr[2].Some?)
    }

    /** The filled redirections. */
    function Redir(): Redirection
      reads this, redirectArr
      requires redirectArr.Length == 3
    {
      Redirection(redirectArr[0], redirectArr[1], redirectArr[2])
    }

    /** The token array of a line with `n` tokens, filled by `tokenize`
        (sh.c:630-631), with no flag set. */
    constructor (line: string, n: nat)
      requires n == |Tokens(line)|
      ensures Valid() && fresh(alltok) && fresh(redirectArr)
      ensures numTokens == n && alltok[..] == Wrap(Tokens(line))
      ensures !background && Redir() == NoRedirection
    {
      var arr := new Option<string>[n](_ => None);
      Tokenize(arr, line);
      assert arr[..] == Wrap(Tokens(line));
      alltok := arr;
      numTokens := n;
      background := false;
      redirectInput, redirectOutput, redirectAppend := false, false, false;
      redirectArr := new Option<string>[3](_ => None);
      cmdArg := new Option<string>[1](_ => None);
      numArgs := 0;
    }

    /** sh.c:633-638: a last token `&` sets the background flag, is cleared
        and no longer counted; any other last token changes nothing. */
    method StripBackground()
      requires Valid() && numTokens > 0
      modifies this, alltok
      ensures Valid() && unchanged(redirectArr)
      ensures background <==> old(alltok[numTokens - 1]) == Some("&")
      ensures numTokens == old(numTokens) - (if background then 1 else 0)
      ensures alltok[..numTokens] == old(alltok[..])[..numTokens]
      ensures redirectInput == old(redirectInput) && redirectOutput == old(redirectOutput)
      ensures redirectAppend == old(redirectAppend)
    {
      background := false;
      if alltok[numTokens - 1] == Some("&") {
        background := true;
        alltok[numTokens - 1] := None;
        numTokens := numTokens - 1;
      }
    }

    /** The scan of `toks` has reached index `i`: the slots before `i` are
        final, the tokens from `i` on are untouched, and finishing the scan
        from here with the redirections found so far gives the whole scan. */
    ghost predicate Scanning(toks: seq<string>, i: nat)
      reads this, alltok, redirectArr
    {
      && Valid() && |toks| == numTokens && i <= numTokens
      && (forall k :: i <= k < numTokens ==> alltok[k] == Some(toks[k]))
      && Scan(toks, 0, NoRedirection) == Prepend(alltok[..i], Scan(toks, i, Redir()))
    }

    /** The common step of the three operator branches of `check_redirects`
        (sh.c:90-95, sh.c:109-114, sh.c:128-133): set the flag of `slot`,
        move the file token at `i + 1` into the filename slot, clear both
        token slots and go on after the file. */
    method Record(ghost toks: seq<string>, i: nat, slot: nat)
      requires Scanning(toks, i) && i + 1 < numTokens && slot < 3
      requires slot == 0 <==> toks[i] == "<"
      requires slot == 1 <==> toks[i] == ">"
      requires slot == 2 <==> toks[i] == ">>"
      requires if slot == 0 then !redirectInput else !(redirectOutput || redirectAppend)
      modifies this, alltok, redirectArr
      ensures Scanning(toks, i + 2)
      ensures numTokens == old(numTokens) && background == old(background)
      ensures alltok[i] == None && alltok[i + 1] == None
      ensures alltok[..i] == old(alltok[..i]) && alltok[i + 2..] == old(alltok[i + 2..])
      ensures Redir() == Fill(old(Redir()), toks[i], toks[i + 1])
    {
      ghost var before, r := alltok[..i], Redir();
      StepOverPair(toks, i, r, before);
      if slot == 0 {
        redirectInput := true;
      } else if slot == 1 {
        redirectOutput := true;
      } else {
        redirectAppend := true;
      }
      alltok[i] := None;
      redirectArr[slot] := alltok[i + 1];
      alltok[i + 1] := None;
      assert alltok[..i + 2] == before + [None, None];
      assert Redir() == Fill(r, toks[i], toks[i + 1]);
    }

    /** `check_redirects` (sh.c:76-138) on the `numTokens` live tokens `toks`:
        `None` for return value 0, otherwise the diagnostic printed.  On
        success the token array holds the scanned slots and the flags and
        filename slots the redirections found. */
    method CheckRedirects(ghost toks: seq<string>) returns (err: Option<RedirectError>)
      requires Valid() && Redir() == NoRedirection
      requires |toks| == numTokens && alltok[..numTokens] == Wrap(toks)
      modifies this, alltok, redirectArr
      ensures Valid() && numTokens == old(numTokens) && background == old(background)
      ensures err.None? <==> Scan(toks, 0, NoRedirection).Ok?
      ensures err.Some? ==> Scan(toks, 0, NoRedirection) == Err(err.value)
      ensures err.None? ==>
        && alltok[..numTokens] == Scan(toks, 0, NoRedirection).value.slots
        && Redir() == Scan(toks, 0, NoRedirection).value.redir
    {
      var i := 0;
      PrependNothing(Scan(toks, 0, NoRedirection));
      while i < numTokens
        invariant Scanning(toks, i)
        invariant numTokens == old(numTokens) && background == old(background)
        decreases numTokens - i
      {
        var tok := alltok[i].value;
        if tok == "<" {
          if redirectInput {
            return Some(TwoInputs);
          }
          if i == numTokens - 1 {
            return Some(NoFile);
          }
          Record(toks, i, 0);
          i := i + 2;
        } else if tok == ">" {
          if redirectOutput || redirectAppend {
            return Some(TwoOutputs);
          }
          if i == numTokens - 1 {
            return Some(NoFile);
          }
          Record(toks, i, 1);
          i := i + 2;
        } else if tok == ">>" {
          if redirectOutput || redirectAppend {
            return Some(TwoOutputs);
          }
          if i == numTokens - 1 {
            return Some(NoFile);
          }
          Record(toks, i, 2);
          i := i + 2;
        } else {
          StepOverWord(toks, i, Redir(), alltok[..i]);
          assert alltok[..i + 1] == alltok[..i] + [Some(tok)];
          i := i + 1;
        }
      }
      assert alltok[..numTokens] + [] == alltok[..numTokens];
      return None;
    }

    /** sh.c:659-675: `num_args` is `num_tokens` less two per redirection,
        and `cmd_arg` holds the non-NULL tokens in their order followed by
        NULL.  The surviving tokens must number what `main` computes, as they
        do after a successful `check_redirects` (`Redirects.ArgCount`). */
    method BuildArgs()
      requires Valid()
      requires |Present(alltok[..numTokens])| + 2 * Filled(Redir()) == numTokens
      modifies this
      ensures Valid() && fresh(cmdArg)
      ensures numTokens == old(numTokens) && background == old(background)
      ensures redirectInput == old(redirectInput) && redirectOutput == old(redirectOutput)
      ensures redirectAppend == old(redirectAppend)
      ensures numArgs + 2 * (if redirectInput then 1 else 0) + 2 * (if redirectOutput || redirectAppend then 1 else 0)
           == numTokens
      ensures cmdArg.Length == numArgs + 1 && cmdArg[numArgs] == None
      ensures cmdArg[..numArgs] == Wrap(Present(alltok[..numTokens]))
    {
      var n: int := numTokens;
      if redirectInput {
        n := n - 2;
      }
      if redirectOutput || redirectAppend {
        n := n - 2;
      }
      var args := new Option<string>[n + 1](_ => None);
      var j := CompactArgs(alltok, numTokens, args);
      args[n] := None;
      numArgs, cmdArg := n, args;
    }
  }

  lemma PrependNothing(res: Result<Scanned, RedirectError>)
    ensures Prepend([], res) == res
  {
    if res.Ok? {
      assert [] + res.value.slots == res.value.slots;
    }
  }

  /** One operator of the scan, with the slots before it already final. */
  lemma StepOverPair(toks: seq<string>, i: nat, r: Redirection, before: seq<Option<string>>)
    requires i + 1 < |toks| && IsOperator(toks[i])
    requires toks[i] == "<" ==> r.input.None?
    requires toks[i] != "<" ==> !OutputSet(r)
    ensures Prepend(before, Scan(toks, i, r))
         == Prepend(before + [None, None], Scan(toks, i + 2, Fill(r, toks[i], toks[i + 1])))
  {
    var rest := Scan(toks, i + 2, Fill(r, toks[i], toks[i + 1]));
    if rest.Ok? {
      assert before + ([None, None] + rest.value.slots) == (before + [None, None]) + rest.value.slots;
    }
  }

  /** One kept word of the scan, with the slots before it already final. */
  lemma StepOverWord(toks: seq<string>, i: nat, r: Redirection, before: seq<Option<string>>)
    requires i < |toks| && !IsOperator(toks[i])
    ensures Prepend(before, Scan(toks, i, r)) == Prepend(before + [Some(toks[i])], Scan(toks, i + 1, r))
  {
    var rest := Scan(toks, i + 1, r);
    if rest.Ok? {
      assert before + ([Some(toks[i])] + rest.value.slots) == (before + [Some(toks[i])]) + rest.value.slots;
    }
  }

  /** Growing a prefix by one slot adds that slot's token, if any, and the
      prefix never has more tokens than the whole. */
  lemma PrefixPresent(s: seq<Option<string>>, i: nat)
    requires i < |s|
    ensures Present(s[..i + 1]) == Present(s[..i]) + (if s[i].Some? then [s[i].value] else [])
    ensures |Present(s[..i + 1])| <= |Present(s)|
  {
    assert s[..i + 1][..i] == s[..i];
    PresentConcat(s[..i + 1], s[i + 1..]);
    assert s[..i + 1] + s[i + 1..] == s;
  }

  lemma WrapSnoc(ts: seq<string>, t: string)
    ensures Wrap(ts + [t]) == Wrap(ts) + [Some(t)]
  {
  }

  /** The copy loop of sh.c:668-674: the non-NULL slots among the first
      `numTokens` of `alltok` go, in order, to the front of `args`. */
  method CompactArgs(alltok: array<Option<string>>, numTokens: nat, args: array<Option<string>>) returns (j: nat)
    requires numTokens <= alltok.Length && alltok != args
    requires |Present(alltok[..numTokens])| <= args.Length
    modifies args
    ensures j == |Present(alltok[..numTokens])|
    ensures args[..j] == Wrap(Present(alltok[..numTokens]))
    ensures args[j..] == old(args[j..])
  {
    ghost var all := alltok[..numTokens];
    j := 0;
    for i := 0 to numTokens
      invariant j == |Present(all[..i])| <= |Present(all)|
      invariant args[..j] == Wrap(Present(all[..i]))
      invariant args[j..] == old(args[j..])
    {
      PrefixPresent(all, i);
      if alltok[i] != None {
        assert all[i] == alltok[i];
        WrapSnoc(Present(all[..i]), alltok[i].value);
        args[j] := alltok[i];
        assert args[..j + 1] == args[..j] + [alltok[i]];
        j := j + 1;
      }
    }
    assert all == all[..numTokens];
  }

  /** main's handling of one line (sh.c:625-675), up to the call of
      `run_command`. */
  method ParseLine(line: string) returns (p: Parsed)
    requires Tokens(line) != ["&"]
    ensures p == Parse(line)
  {
    var n := CountTokens(line);
    if n == 0 {
      return Blank;
    }
    var lp := new LineParser(line, n);
    lp.StripBackground();
    ghost var words := StripAmpersand(Tokens(line)).0;
    assert lp.alltok[..lp.numTokens] == Wrap(words);
    if NoCommand(lp.alltok[0].value, lp.numTokens) {
      return Refused;
    }
    var err := lp.CheckRedirects(words);
    if err.Some? {
      return BadRedirect(err.value);
    }
    ArgCount(words, 0, NoRedirection);
    lp.BuildArgs();
    p := Command(Unwrap(lp.cmdArg[..lp.numArgs]), lp.Redir(), lp.background);
  }

  /** A line gives nothing to do exactly when it is blank. */
  lemma BlankIff(line: string)
    requires Tokens(line) != ["&"]
    ensures Parse(line) == Blank <==> IsBlank(line)
  {
    NoTokensIffBlank(line, 0);
    assert line[0..] == line;
  }

  /** sh.c:640-643: a line is refused as having no command exactly when,
      once a trailing `&` is gone, its first token starts with `<` or `>`
      and at most two tokens are left; such a line never reaches
      `check_redirects`. */
  lemma RefusedIff(line: string)
    requires Tokens(line) != ["&"]
    ensures var toks := Tokens(line);
      Parse(line) == Refused <==>
        && toks != []
        && |toks[0]| > 0 && (toks[0][0] == '<' || toks[0][0] == '>')
        && |toks| - (if toks[|toks| - 1] == "&" then 1 else 0) <= 2
  {
    var toks := Tokens(line);
    if toks != [] {
      var words := StripAmpersand(toks).0;
      assert |toks| > 1 || toks[0] != "&";
      assert words[0] == toks[0];
    }
  }

  /** What a command carries: it runs in the background exactly when its
      last token is `&`; its arguments are the words left once each
      redirection operator has taken its file, none of them an operator;
      the arguments, two tokens per redirection and the `&` account for
      every token; and output and append are never both redirected. */
  lemma CommandParts(line: string)
    requires Tokens(line) != ["&"] && Parse(line).Command?
    ensures var toks, c := Tokens(line), Parse(line);
      && (c.background <==> toks[|toks| - 1] == "&")
      && c.args == Words(Units(StripAmpersand(toks).0, 0))
      && (forall k :: 0 <= k < |c.args| ==> !IsOperator(c.args[k]))
      && |c.args| + 2 * Filled(c.redir) + (if c.background then 1 else 0) == |toks|
      && !(c.redir.output.Some? && c.redir.append.Some?)
  {
    var words := StripAmpersand(Tokens(line)).0;
    ScanSucceedsIff(words, 0, NoRedirection);
    ArgCount(words, 0, NoRedirection);
    ScanShape(words, 0, NoRedirection);
    WordsAreNotOperators(words, 0);
  }
}
