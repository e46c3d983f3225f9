/**
 Calling the tokenizer again: on a longer prefix of the text, with a larger token array, or first
 without one to learn how many cells are needed.
 */
module Resume {
  import opened Jsmn
  import opened Options
  import opened JsmnInvariant
  import Forest

  // ------------------------------------------------------ growing the text

  lemma {:induction false} ScanPrimitiveGrow(js: string, more: string, p: nat)
    requires js <= more && !ScanPrimitive(js, p).Partial?
    ensures ScanPrimitive(more, p) == ScanPrimitive(js, p)
    decreases |js| - p
  {
    if Delimiter(js[p]) || js[p] < ' ' || js[p] >= 127 as char {
    } else {
      ScanPrimitiveGrow(js, more, p + 1);
    }
  }

  /** A run of hex digits either ends the same way, or was cut off by the end of the text. */
  lemma {:induction false} ScanHexGrow(js: string, more: string, p: nat, n: nat)
    requires js <= more && p <= |js|
    ensures var h := ScanHex(js, p, n); ScanHex(more, p, n) == h || (h.Found? && h.at == |js|)
    decreases n
  {
    if n == 0 || AtEnd(js, p) || !HexDigit(js[p]) {
    } else {
      ScanHexGrow(js, more, p + 1, n - 1);
    }
  }

  lemma {:induction false} ScanStringGrow(js: string, more: string, p: nat)
    requires js <= more && !ScanString(js, p).Partial?
    ensures ScanString(more, p) == ScanString(js, p)
    decreases |js| - p
  {
    if js[p] == '"' {
    } else if js[p] == '\\' && p + 1 < |js| {
      if SimpleEscape(js[p + 1]) {
        ScanStringGrow(js, more, p + 2);
      } else if js[p + 1] == 'u' {
        ScanHexGrow(js, more, p + 2, 4);
        var h := ScanHex(js, p + 2, 4);
        if h.Found? { ScanStringGrow(js, more, h.at); }
      }
    } else {
      ScanStringGrow(js, more, p + 1);
    }
  }

  /** An iteration that did something, or refused the text, does the same with more of both. */
  lemma StepGrow(s: State, js: string, more: string, cap: nat, room: nat)
    requires Wf(s) && !AtEnd(js, s.pos) && js <= more && cap <= room
    requires var o := Step(s, js, cap); o.Next? || o.code == INVAL
    ensures Step(s, more, room) == Step(s, js, cap)
  {
    var c := js[s.pos];
    if c == '"' {
      if !ScanString(js, s.pos + 1).Partial? { ScanStringGrow(js, more, s.pos + 1); }
    } else if PrimitiveStart(c) {
      if !ScanPrimitive(js, s.pos).Partial? { ScanPrimitiveGrow(js, more, s.pos); }
    }
  }

  /**
   A call that was not refused leaves a state from which the longer text, with at least as many
   cells, gives what it would have given from the start; a refusal is final.
   */
  lemma {:induction false} RunGrow(s: State, js: string, more: string, cap: nat, room: nat)
    requires Wf(s) && js <= more && cap <= room
    ensures var r := Run(s, js, cap);
            Run(s, more, room) == if r.code == INVAL then r else Run(r.s, more, room)
    decreases |js| - s.pos
  {
    if AtEnd(js, s.pos) {
    } else {
      var o := Step(s, js, cap);
      if o.Next? {
        StepGrow(s, js, more, cap, room);
        RunGrow(o.s, js, more, cap, room);
      } else if o.code == INVAL {
        StepGrow(s, js, more, cap, room);
      }
    }
  }

  /** One of several calls: how much of the text is there, and how many cells. */
  datatype Call = Call(len: nat, cap: nat)

  ghost predicate Growing(calls: seq<Call>) {
    forall i, j :: 0 <= i < j < |calls| ==> calls[i].len <= calls[j].len && calls[i].cap <= calls[j].cap
  }

  /** The calls in turn, each from the state the last one left, until one refuses the text. */
  function Feed(s: State, js: string, calls: seq<Call>): (r: Result)
    requires Wf(s) && calls != [] && forall c :: c in calls ==> c.len <= |js|
    decreases calls
  {
    var r := Run(s, js[..calls[0].len], calls[0].cap);
    if r.code == INVAL || |calls| == 1 then r else Feed(r.s, js, calls[1..])
  }

  /**
   Resumable parsing: any sequence of calls over growing prefixes, with growing token arrays, that
   ends with the whole text returns what one call over the whole text returns: code, position,
   superior token and tokens.
   */
  lemma {:induction false} FeedIsOneCall(s: State, js: string, calls: seq<Call>)
    requires Wf(s) && calls != [] && forall c :: c in calls ==> c.len <= |js|
    requires Growing(calls) && calls[|calls| - 1].len == |js|
    ensures Feed(s, js, calls) == Run(s, js, calls[|calls| - 1].cap)
    decreases calls
  {
    hide Run;
    var last := calls[|calls| - 1];
    assert js[..last.len] == js;
    RunGrow(s, js[..calls[0].len], js, calls[0].cap, last.cap);
    var r := Run(s, js[..calls[0].len], calls[0].cap);
    if r.code == INVAL || |calls| == 1 {
    } else {
      assert calls[1..][|calls| - 2] == last;
      FeedIsOneCall(r.s, js, calls[1..]);
    }
  }

  // --------------------------------------------------------- the two passes

  /** An iteration that fills moves as the counting one does; where it runs out of cells, that one counts on. */
  lemma StepsAgree(s: State, js: string, cap: nat)
    requires Wf(s) && |s.toks| <= cap && !AtEnd(js, s.pos)
    ensures var o, c := Step(s, js, cap), CountStep(js, s.pos);
            if o.Next? then c == Skip(o.s.pos, |o.s.toks| - |s.toks|) && |o.s.toks| <= cap
            else o.code < 0 && (o.code == INVAL || c.Stop? || |s.toks| + c.added > cap)
  {
    hide ScanString, ScanPrimitive, Climb, Bump;
  }

  /** The filling pass moves in step with the counting pass until it refuses the text or runs out. */
  lemma {:induction false} PassesAgree(s: State, js: string, cap: nat)
    requires Wf(s) && |s.toks| <= cap
    ensures var c, r := CountRun(js, s.pos, |s.toks|), Run(s, js, cap);
            && (r.code >= 0 ==> c.code == r.code)
            && (0 <= c.code <= cap && r.code != INVAL ==>
                  r.s.pos == c.pos && |r.s.toks| == c.code && r.code == Finish(r.s.toks) && AtEnd(js, r.s.pos))
    decreases |js| - s.pos
  {
    hide Step, CountStep, LastOpen;
    if AtEnd(js, s.pos) {
    } else {
      StepsAgree(s, js, cap);
      var o := Step(s, js, cap);
      if o.Next? { PassesAgree(o.s, js, cap); }
    }
  }

  /** `json_parse_start`: count, allocate, fill; both passes must return a positive number. */
  function ParseStart(js: string): (r: Option<seq<Token>>)
  {
    var n := CountRun(js, 0, 0).code;
    if n <= 0 then None
    else
      var r := Run(INIT, js, n);
      if r.code <= 0 then None else Some(r.s.toks)
  }

  /**
   Two-pass agreement: after a count of `n` the filling pass over `n` cells never runs out, and
   unless it refuses the text it ends at the same place with exactly `n` tokens; when it accepts,
   no container is open.
   */
  lemma TwoPasses(js: string)
    requires CountRun(js, 0, 0).code > 0
    ensures var c := CountRun(js, 0, 0);
            var r := Run(INIT, js, c.code);
            && r.code != NOMEM
            && (r.code != INVAL ==> r.s.pos == c.pos && |r.s.toks| == c.code && (r.code == PART || r.code == c.code))
            && (r.code >= 0 ==> forall k :: 0 <= k < |r.s.toks| ==> !r.s.toks[k].Open())
  {
    PassesAgree(INIT, js, CountRun(js, 0, 0).code);
  }

  /** Parsing in two passes accepts a text exactly when some single pass would, with its tokens. */
  lemma TwoPassesSuffice(js: string, cap: nat)
    requires Run(INIT, js, cap).code > 0
    ensures ParseStart(js) == Some(Run(INIT, js, cap).s.toks)
  {
    PassesAgree(INIT, js, cap);
    RunCap(INIT, js, cap);
    var n := CountRun(js, 0, 0).code;
    RunEnds(INIT, js, cap);
    assert n == |Run(INIT, js, cap).s.toks|;
    PassesAgree(INIT, js, n);
    RunGrow(INIT, js, js, n, cap);
  }

  lemma {:induction false} RunEnds(s: State, js: string, cap: nat)
    requires Wf(s) && Run(s, js, cap).code >= 0
    ensures Run(s, js, cap).code == Finish(Run(s, js, cap).s.toks) == |Run(s, js, cap).s.toks|
    decreases |js| - s.pos
  {
    if AtEnd(js, s.pos) {
    } else {
      var o := Step(s, js, cap);
      if o.Next? { RunEnds(o.s, js, cap); }
    }
  }

  lemma {:induction false} RunStaysInside(s: State, js: string, cap: nat)
    requires Wf(s) && s.pos <= |js|
    ensures Run(s, js, cap).s.pos <= |js|
    decreases |js| - s.pos
  {
    if AtEnd(js, s.pos) {
    } else {
      var o := Step(s, js, cap);
      if o.Next? { RunStaysInside(o.s, js, cap); }
    }
  }

  /** A finished token array over `js`: a preorder forest, counts right, every span closed and inside. */
  ghost predicate Accepted(js: string, toks: seq<Token>) {
    && toks != []
    && Forest.Preorder(toks) && Sizes(toks) && KeysAreStrings(toks)
    && Spans(toks, |js|)
    && forall k :: 0 <= k < |toks| ==> toks[k].end != -1
  }

  /** Everything `json_parse_start` accepts is such an array, and the next pass would accept it too. */
  lemma ParseStartAccepted(js: string)
    requires ParseStart(js).Some?
    ensures var toks := ParseStart(js).value;
            Accepted(js, toks) && Run(INIT, js, |toks|).code == |toks| && Run(INIT, js, |toks|).s.toks == toks
  {
    var n := CountRun(js, 0, 0).code;
    var r := Run(INIT, js, n);
    TwoPasses(js);
    RunEnds(INIT, js, n);
    RunInv(INIT, js, n);
    RunStaysInside(INIT, js, n);
    forall k | 0 <= k < |r.s.toks| ensures r.s.toks[k].end != -1 { assert !r.s.toks[k].Open(); }
  }
}
