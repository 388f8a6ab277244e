/** What `check_redirects` in sh.c computes from the token array, stated on
    values: which slots survive as command arguments, which file each
    redirection operator names, and when the line is refused. */
module Redirects {
  import opened Wrappers

  /** The three filename slots of `redirect_arr`; a slot is `Some` exactly
      when the matching flag (`redirect_input`, `redirect_output`,
      `redirect_output_append`) is 1. */
  datatype Redirection = Redirection(input: Option<string>, output: Option<string>, append: Option<string>)

  const NoRedirection := Redirection(None, None, None)

  /** Either output flag is set. */
  predicate OutputSet(r: Redirection) {
    r.output.Some? || r.append.Some?
  }

  /** The number of redirections `main` subtracts twice from `num_tokens`. */
  function Filled(r: Redirection): nat {
    (if r.input.Some? then 1 else 0) + (if OutputSet(r) then 1 else 0)
  }

  /** The slots once operator `op` has recorded `file`. */
  function Fill(r: Redirection, op: string, file: string): Redirection {
    if op == "<" then r.(input := Some(file))
    else if op == ">" then r.(output := Some(file))
    else r.(append := Some(file))
  }

  /** The slot an operator writes its filename to. */
  function Slot(r: Redirection, op: string): Option<string> {
    if op == "<" then r.input else if op == ">" then r.output else r.append
  }

  /** The three diagnostics of `check_redirects`. */
  datatype RedirectError = TwoInputs | TwoOutputs | NoFile

  predicate IsOperator(t: string) {
    t == "<" || t == ">" || t == ">>"
  }

  /** The token array after a successful scan (NULL slots are `None`) and
      the filled redirection slots. */
  datatype Scanned = Scanned(slots: seq<Option<string>>, redir: Redirection)

  function Prepend(p: seq<Option<string>>, res: Result<Scanned, RedirectError>): Result<Scanned, RedirectError> {
    match res
    case Err(e) => Err(e)
    case Ok(sc) => Ok(Scanned(p + sc.slots, sc.redir))
  }

  /** The loop of `check_redirects` from index `i` on, with the slots `r`
      filled so far.  An operator takes the next token as its file and both
      slots become NULL; the file token is skipped, never examined. */
  function Scan(toks: seq<string>, i: nat, r: Redirection): Result<Scanned, RedirectError>
    requires i <= |toks|
    decreases |toks| - i
  {
    if i == |toks| then Ok(Scanned([], r))
    else if toks[i] == "<" then
      if r.input.Some? then Err(TwoInputs)
      else if i == |toks| - 1 then Err(NoFile)
      else Prepend([None, None], Scan(toks, i + 2, Fill(r, "<", toks[i + 1])))
    else if toks[i] == ">" || toks[i] == ">>" then
      if OutputSet(r) then Err(TwoOutputs)
      else if i == |toks| - 1 then Err(NoFile)
      else Prepend([None, None], Scan(toks, i + 2, Fill(r, toks[i], toks[i + 1])))
    else Prepend([Some(toks[i])], Scan(toks, i + 1, r))
  }

  /** The non-NULL slots, in order: what `main` copies into `cmd_arg`. */
  function Present(slots: seq<Option<string>>): seq<string> {
    if slots == [] then []
    else
      var last := slots[|slots| - 1];
      Present(slots[..|slots| - 1]) + (if last.Some? then [last.value] else [])
  }

  lemma {:induction false} PresentConcat(p: seq<Option<string>>, q: seq<Option<string>>)
    ensures Present(p + q) == Present(p) + Present(q)
    decreases |q|
  {
    if q != [] {
      var q' := q[..|q| - 1];
      assert (p + q)[..|p + q| - 1] == p + q';
      PresentConcat(p, q');
    } else {
      assert p + q == p;
    }
  }

  /** The shape of a successful scan: one slot per token, each NULL or the
      token itself; filled slots are never overwritten, and the two output
      slots are never both filled. */
  lemma {:induction false} ScanShape(toks: seq<string>, i: nat, r: Redirection)
    requires i <= |toks| && Scan(toks, i, r).Ok?
    ensures var sc := Scan(toks, i, r).value;
      && |sc.slots| == |toks| - i
      && (forall k :: 0 <= k < |sc.slots| ==> sc.slots[k] == None || sc.slots[k] == Some(toks[i + k]))
      && (r.input.Some? ==> sc.redir.input == r.input)
      && (r.output.Some? ==> sc.redir.output == r.output)
      && (r.append.Some? ==> sc.redir.append == r.append)
      && (!(r.output.Some? && r.append.Some?) ==> !(sc.redir.output.Some? && sc.redir.append.Some?))
    decreases |toks| - i
  {
    if i < |toks| {
      if IsOperator(toks[i]) {
        ScanShape(toks, i + 2, Fill(r, toks[i], toks[i + 1]));
      } else {
        ScanShape(toks, i + 1, r);
      }
    }
  }

  /** No operator token survives a successful scan: each one is either
      consumed as an operator or skipped as the file of the one before. */
  lemma {:induction false} OperatorsNeverKept(toks: seq<string>, i: nat, r: Redirection)
    requires i <= |toks| && Scan(toks, i, r).Ok?
    ensures var sl := Scan(toks, i, r).value.slots;
      forall k :: 0 <= k < |sl| && sl[k].Some? ==> !IsOperator(sl[k].value)
    decreases |toks| - i
  {
    if i < |toks| {
      if IsOperator(toks[i]) {
        OperatorsNeverKept(toks, i + 2, Fill(r, toks[i], toks[i + 1]));
      } else {
        OperatorsNeverKept(toks, i + 1, r);
      }
    }
  }

  /** Slot `k` (counted in `toks`) of a scan that started at `i`, if NULL,
      is an operator whose file follows it, or the file of the operator
      before it; either way that file is what the operator's redirection
      slot holds. */
  predicate NullPaired(toks: seq<string>, i: nat, sc: Scanned, k: nat)
    requires i <= k < |toks| && |sc.slots| == |toks| - i
  {
    sc.slots[k - i] == None ==>
      || (IsOperator(toks[k]) && k + 1 < |toks| && sc.slots[k + 1 - i] == None
          && Slot(sc.redir, toks[k]) == Some(toks[k + 1]))
      || (i < k && IsOperator(toks[k - 1]) && sc.slots[k - 1 - i] == None
          && Slot(sc.redir, toks[k - 1]) == Some(toks[k]))
  }

  /** The pairing survives putting an operator and its file in front. */
  lemma PairedAfterOperator(toks: seq<string>, i: nat, r: Redirection, next: nat)
    requires i + 1 < |toks| && IsOperator(toks[i]) && Scan(toks, i, r).Ok? && next == i + 2
    requires var sc' := Scan(toks, next, Fill(r, toks[i], toks[i + 1])).value;
      && |sc'.slots| == |toks| - next
      && Slot(sc'.redir, toks[i]) == Some(toks[i + 1])
      && forall k :: next <= k < |toks| ==> NullPaired(toks, next, sc', k)
    ensures |Scan(toks, i, r).value.slots| == |toks| - i
    ensures forall k :: i <= k < |toks| ==> NullPaired(toks, i, Scan(toks, i, r).value, k)
  {
    var sc := Scan(toks, i, r).value;
    var sc' := Scan(toks, i + 2, Fill(r, toks[i], toks[i + 1])).value;
    assert sc.slots == [None, None] + sc'.slots && sc.redir == sc'.redir;
    forall k | i <= k < |toks| ensures NullPaired(toks, i, sc, k) {
      if k >= i + 2 {
        assert NullPaired(toks, i + 2, sc', k);
        assert sc.slots[k - i] == sc'.slots[k - (i + 2)];
        if k + 1 < |toks| { assert sc.slots[k + 1 - i] == sc'.slots[k + 1 - (i + 2)]; }
        if k > i + 2 { assert sc.slots[k - 1 - i] == sc'.slots[k - 1 - (i + 2)]; }
      }
    }
  }

  /** The pairing survives putting a kept word in front. */
  lemma PairedAfterWord(toks: seq<string>, i: nat, r: Redirection, next: nat)
    requires i < |toks| && !IsOperator(toks[i]) && Scan(toks, i, r).Ok? && next == i + 1
    requires var sc' := Scan(toks, next, r).value;
      && |sc'.slots| == |toks| - next
      && forall k :: next <= k < |toks| ==> NullPaired(toks, next, sc', k)
    ensures |Scan(toks, i, r).value.slots| == |toks| - i
    ensures forall k :: i <= k < |toks| ==> NullPaired(toks, i, Scan(toks, i, r).value, k)
  {
    var sc := Scan(toks, i, r).value;
    var sc' := Scan(toks, i + 1, r).value;
    assert sc.slots == [Some(toks[i])] + sc'.slots && sc.redir == sc'.redir;
    forall k | i <= k < |toks| ensures NullPaired(toks, i, sc, k) {
      if k >= i + 1 {
        assert NullPaired(toks, i + 1, sc', k);
        assert sc.slots[k - i] == sc'.slots[k - (i + 1)];
        if k + 1 < |toks| { assert sc.slots[k + 1 - i] == sc'.slots[k + 1 - (i + 1)]; }
        if k > i + 1 { assert sc.slots[k - 1 - i] == sc'.slots[k - 1 - (i + 1)]; }
      }
    }
  }

  /** Every NULL slot of a successful scan belongs to an operator-file pair
      recorded in the redirection slots. */
  lemma {:induction false} NullSlotsArePairs(toks: seq<string>, i: nat, r: Redirection)
    requires i <= |toks| && Scan(toks, i, r).Ok?
    ensures |Scan(toks, i, r).value.slots| == |toks| - i
    ensures forall k :: i <= k < |toks| ==> NullPaired(toks, i, Scan(toks, i, r).value, k)
    decreases |toks| - i
  {
    ScanShape(toks, i, r);
    if i < |toks| {
      if IsOperator(toks[i]) {
        var r' := Fill(r, toks[i], toks[i + 1]);
        NullSlotsArePairs(toks, i + 2, r');
        ScanShape(toks, i + 2, r');
        PairedAfterOperator(toks, i, r, i + 2);
      } else {
        NullSlotsArePairs(toks, i + 1, r);
        PairedAfterWord(toks, i, r, i + 1);
      }
    }
  }

  /** A redirection slot the scan filled was filled by its operator at some
      index `k`, from the token right after it, and both are NULL now. */
  predicate RecordedAt(toks: seq<string>, i: nat, sc: Scanned, op: string, k: nat)
    requires |sc.slots| == |toks| - i
  {
    && i <= k && k + 1 < |toks|
    && toks[k] == op && Slot(sc.redir, op) == Some(toks[k + 1])
    && sc.slots[k - i] == None && sc.slots[k + 1 - i] == None
  }

  /** A recording survives putting slots in front of the scan. */
  lemma RecordedShift(toks: seq<string>, i: nat, next: nat, sc: Scanned, sc': Scanned, op: string, k: nat)
    requires i <= next <= |toks| && |sc'.slots| == |toks| - next
    requires sc.redir == sc'.redir && |sc.slots| == |toks| - i
    requires sc.slots[next - i..] == sc'.slots
    requires RecordedAt(toks, next, sc', op, k)
    ensures RecordedAt(toks, i, sc, op, k)
  {
    assert sc.slots[k - i] == sc'.slots[k - next];
    assert sc.slots[k + 1 - i] == sc'.slots[k + 1 - next];
  }

  lemma {:induction false} FilledByOperator(toks: seq<string>, i: nat, r: Redirection, op: string)
    requires i <= |toks| && Scan(toks, i, r).Ok? && IsOperator(op)
    requires Slot(r, op).None? && Slot(Scan(toks, i, r).value.redir, op).Some?
    ensures |Scan(toks, i, r).value.slots| == |toks| - i
    ensures exists k :: RecordedAt(toks, i, Scan(toks, i, r).value, op, k)
    decreases |toks| - i
  {
    ScanShape(toks, i, r);
    var sc := Scan(toks, i, r).value;
    if IsOperator(toks[i]) {
      var r' := Fill(r, toks[i], toks[i + 1]);
      ScanShape(toks, i + 2, r');
      var sc' := Scan(toks, i + 2, r').value;
      assert sc.slots == [None, None] + sc'.slots && sc.redir == sc'.redir;
      if toks[i] == op {
        assert RecordedAt(toks, i, sc, op, i);
      } else {
        FilledByOperator(toks, i + 2, r', op);
        var k: nat :| RecordedAt(toks, i + 2, sc', op, k);
        RecordedShift(toks, i, i + 2, sc, sc', op, k);
      }
    } else {
      FilledByOperator(toks, i + 1, r, op);
      var sc' := Scan(toks, i + 1, r).value;
      assert sc.slots == [Some(toks[i])] + sc'.slots && sc.redir == sc'.redir;
      var k: nat :| RecordedAt(toks, i + 1, sc', op, k);
      RecordedShift(toks, i, i + 1, sc, sc', op, k);
    }
  }

  /** The arithmetic of `num_args`: each redirection removes its operator
      and its file, so the surviving tokens number `num_tokens` less two per
      filled redirection (input, and output or append). */
  lemma {:induction false} ArgCount(toks: seq<string>, i: nat, r: Redirection)
    requires i <= |toks| && Scan(toks, i, r).Ok?
    ensures var sc := Scan(toks, i, r).value;
      |Present(sc.slots)| + 2 * Filled(sc.redir) == |toks| - i + 2 * Filled(r)
    decreases |toks| - i
  {
    if i < |toks| {
      var sc := Scan(toks, i, r).value;
      if IsOperator(toks[i]) {
        var r' := Fill(r, toks[i], toks[i + 1]);
        ArgCount(toks, i + 2, r');
        var sc' := Scan(toks, i + 2, r').value;
        assert sc.slots == [None, None] + sc'.slots;
        PresentConcat([None, None], sc'.slots);
        assert Present([None, None]) == Present([None]) == [];
        assert Filled(r') == Filled(r) + 1;
      } else {
        ArgCount(toks, i + 1, r);
        var sc' := Scan(toks, i + 1, r).value;
        assert sc.slots == [Some(toks[i])] + sc'.slots;
        PresentConcat([Some(toks[i])], sc'.slots);
        assert Present([Some(toks[i])]) == Present([]) + [toks[i]];
      }
    }
  }

  /** The tokens grouped the way the scan reads them: a word on its own, an
      operator with the token after it, or an operator with nothing after
      it. */
  datatype Unit = Word(w: string) | Redirect(op: string, file: string) | Dangling(op: string)

  function Units(toks: seq<string>, i: nat): seq<Unit>
    requires i <= |toks|
    decreases |toks| - i
  {
    if i == |toks| then []
    else if !IsOperator(toks[i]) then [Word(toks[i])] + Units(toks, i + 1)
    else if i + 1 == |toks| then [Dangling(toks[i])]
    else [Redirect(toks[i], toks[i + 1])] + Units(toks, i + 2)
  }

  /** How many input (`input`) or output (`!input`) redirections `us` holds. */
  function Count(us: seq<Unit>, input: bool): nat {
    if us == [] then 0
    else (if us[0].Redirect? && (us[0].op == "<") == input then 1 else 0) + Count(us[1..], input)
  }

  /** The words of `us`, in order. */
  function Words(us: seq<Unit>): seq<string> {
    if us == [] then [] else (if us[0].Word? then [us[0].w] else []) + Words(us[1..])
  }

  predicate Complete(us: seq<Unit>) {
    forall k :: 0 <= k < |us| ==> !us[k].Dangling?
  }

  function Used(b: bool): nat {
    if b then 1 else 0
  }

  /** What `ScanSucceedsIff` states about a scan from index `i`. */
  ghost predicate ScanMatchesUnits(toks: seq<string>, i: nat, r: Redirection)
    requires i <= |toks|
  {
    var us := Units(toks, i);
    && (Scan(toks, i, r).Ok? <==>
          && Complete(us)
          && Count(us, true) + Used(r.input.Some?) <= 1
          && Count(us, false) + Used(OutputSet(r)) <= 1)
    && (Scan(toks, i, r).Ok? ==> Present(Scan(toks, i, r).value.slots) == Words(us))
  }

  lemma CompleteCons(us: seq<Unit>)
    requires us != []
    ensures Complete(us) <==> !us[0].Dangling? && Complete(us[1..])
  {
    if !us[0].Dangling? && Complete(us[1..]) {
      forall k | 0 < k < |us| ensures !us[k].Dangling? {
        assert us[k] == us[1..][k - 1];
      }
    }
  }

  /** A word in front keeps the correspondence. */
  lemma WordMatches(toks: seq<string>, i: nat, r: Redirection)
    requires i < |toks| && !IsOperator(toks[i]) && ScanMatchesUnits(toks, i + 1, r)
    ensures ScanMatchesUnits(toks, i, r)
  {
    var us := Units(toks, i);
    assert us[1..] == Units(toks, i + 1);
    CompleteCons(us);
    if Scan(toks, i, r).Ok? {
      var sc' := Scan(toks, i + 1, r).value;
      PresentConcat([Some(toks[i])], sc'.slots);
      assert Present([Some(toks[i])]) == Present([]) + [toks[i]];
    }
  }

  /** An operator and its file in front keep the correspondence. */
  lemma RedirectMatches(toks: seq<string>, i: nat, r: Redirection)
    requires i + 1 < |toks| && IsOperator(toks[i])
    requires ScanMatchesUnits(toks, i + 2, Fill(r, toks[i], toks[i + 1]))
    ensures ScanMatchesUnits(toks, i, r)
  {
    var us := Units(toks, i);
    var r' := Fill(r, toks[i], toks[i + 1]);
    assert us[1..] == Units(toks, i + 2);
    CompleteCons(us);
    if Scan(toks, i, r).Ok? {
      var sc' := Scan(toks, i + 2, r').value;
      PresentConcat([None, None], sc'.slots);
      assert Present([None, None]) == Present([None]) == [];
    }
  }

  /** When `check_redirects` returns 0, in both directions, with the tokens
      grouped as the scan reads them (`Units`: the token after an operator
      is its file and is never read as an operator): no operator read as
      one is the last token, and there is at most one such `<` and at most
      one such `>` or `>>`, counting the ones already recorded in `r`.  The
      arguments left over are then the words. */
  lemma {:induction false} ScanSucceedsIff(toks: seq<string>, i: nat, r: Redirection)
    requires i <= |toks|
    ensures var us := Units(toks, i);
      Scan(toks, i, r).Ok? <==>
        && Complete(us)
        && Count(us, true) + Used(r.input.Some?) <= 1
        && Count(us, false) + Used(OutputSet(r)) <= 1
    ensures Scan(toks, i, r).Ok? ==> Present(Scan(toks, i, r).value.slots) == Words(Units(toks, i))
    decreases |toks| - i
  {
    if i == |toks| {
      assert Present([]) == [];
    } else if !IsOperator(toks[i]) {
      ScanSucceedsIff(toks, i + 1, r);
      WordMatches(toks, i, r);
    } else if i + 1 == |toks| {
      var us := Units(toks, i);
      assert !Complete(us) by { assert us[0].Dangling?; }
    } else {
      ScanSucceedsIff(toks, i + 2, Fill(r, toks[i], toks[i + 1]));
      RedirectMatches(toks, i, r);
    }
  }

  /** A missing file is reported only when the scan ends on an operator. */
  lemma {:induction false} NoFileOnlyAtEnd(toks: seq<string>, i: nat, r: Redirection)
    requires i <= |toks| && Scan(toks, i, r) == Err(NoFile)
    ensures i < |toks| && IsOperator(toks[|toks| - 1])
    decreases |toks| - i
  {
    if !IsOperator(toks[i]) {
      NoFileOnlyAtEnd(toks, i + 1, r);
    } else if i + 1 < |toks| {
      NoFileOnlyAtEnd(toks, i + 2, Fill(r, toks[i], toks[i + 1]));
    }
  }

  /** An operator right after another one is its file: `cat > <` writes to
      a file named `<`, although the line ends on an operator. */
  lemma OperatorAsFilename()
    ensures Scan(["cat", ">", "<"], 0, NoRedirection)
         == Ok(Scanned([Some("cat"), None, None], Redirection(None, Some("<"), None)))
  {
    var toks := ["cat", ">", "<"];
    var r := Redirection(None, Some("<"), None);
    assert Fill(NoRedirection, ">", "<") == r;
    assert toks[1] == ">" && toks[1] != "<";
    assert toks[0] != "<" && toks[0] != ">" && toks[0] != ">>";
    assert Scan(toks, 3, r) == Ok(Scanned([], r));
    var nulls: seq<Option<string>> := [None, None];
    assert nulls + [] == nulls;
    assert Scan(toks, 1, NoRedirection) == Ok(Scanned([None, None], r));
    assert [Some("cat")] + [None, None] == [Some("cat"), None, None];
  }

  /** The first fault met wins: `a > b >` is refused as a second output
      redirection, not as a missing file. */
  lemma SecondOutputBeforeMissingFile()
    ensures Scan(["a", ">", "b", ">"], 0, NoRedirection) == Err(TwoOutputs)
  {
  }

  /** The words left over are never operators. */
  lemma {:induction false} WordsAreNotOperators(toks: seq<string>, i: nat)
    requires i <= |toks|
    ensures forall k :: 0 <= k < |Words(Units(toks, i))| ==> !IsOperator(Words(Units(toks, i))[k])
    decreases |toks| - i
  {
    var us := Units(toks, i);
    if i < |toks| && (!IsOperator(toks[i]) || i + 1 < |toks|) {
      var next := if IsOperator(toks[i]) then i + 2 else i + 1;
      WordsAreNotOperators(toks, next);
      assert us[1..] == Units(toks, next);
    }
  }
}
