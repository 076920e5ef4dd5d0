/**
  How an event becomes one line of the log: its texts are cut to fixed limits, and then shortened, the
  description first, until the escaped line fits. Texts are byte strings.
 */
module EventLine {
  import opened Base
  import opened EventLog

  type Text = string

  const ELLIPSIS: Text := "\U{E2}\U{80}\U{A6}" // three bytes

  /** How a text is escaped, counted in characters, and checked: only two bounds are relied on. */
  datatype Encoding = Encoding(quoted: Text -> nat, runes: Text -> nat, valid: Text -> bool)

  ghost predicate Bounded(enc: Encoding) {
    forall s :: enc.quoted(s) <= 6 * enc.runes(s) && enc.runes(s) <= |s|
  }

  /** The six texts in the order they are shortened, and the six of an audit record. */
  datatype Entry = Entry(texts: seq<Text>, audit: Option<seq<Text>>)

  const DESC: nat := 0
  const LABEL: nat := 1
  const HOST: nat := 2
  const KIND: nat := 3
  const SEV: nat := 4
  const TS: nat := 5

  const LIMITS: seq<nat> := [8192, 2048, 512, 64, 32, 64]
  /** Record id, action, target, reason, operator, phase. */
  const AUDIT_LIMITS: seq<nat> := [64, 128, 512, 2048, 64, 32]

  const ROUNDS: nat := 128
  /** Braces, names, quotes, colons and commas. */
  const FRAME: nat := 59
  const AUDIT_FRAME: nat := 75

  // ----- Cutting a text ------------------------------------------------------

  /** The longest valid beginning of at most `cut` bytes. */
  function CutAt(value: Text, cut: nat, valid: Text -> bool): (at: nat)
    requires cut <= |value|
    ensures at <= cut
  {
    if cut > 0 && !valid(value[..cut]) then CutAt(value, cut - 1, valid) else cut
  }

  function Truncate(value: Text, limit: int, valid: Text -> bool): Text {
    if limit <= 0 then ""
    else if |value| <= limit then value
    else if limit <= |ELLIPSIS| then ""
    else value[..CutAt(value, limit - |ELLIPSIS|, valid)] + ELLIPSIS
  }

  method TruncateText(value: Text, limit: int, valid: Text -> bool) returns (out: Text)
    ensures out == Truncate(value, limit, valid)
  {
    if limit <= 0 { return ""; }
    if |value| <= limit { return value; }
    if limit <= |ELLIPSIS| { return ""; }
    var cut := limit - |ELLIPSIS|;
    while cut > 0 && !valid(value[..cut])
      invariant 0 <= cut <= |value|
      invariant CutAt(value, cut, valid) == CutAt(value, limit - |ELLIPSIS|, valid)
    {
      cut := cut - 1;
    }
    out := value[..cut] + ELLIPSIS;
  }

  /** A cut text fits its limit; cutting it again there changes nothing. */
  lemma TruncateFits(value: Text, limit: nat, valid: Text -> bool)
    ensures |Truncate(value, limit, valid)| <= limit
    ensures Truncate(value, limit, valid) == value <==> |value| <= limit
    ensures forall more: nat :: more >= limit ==> Truncate(Truncate(value, limit, valid), more, valid) == Truncate(value, limit, valid)
  {
  }

  /** A text over its limit keeps its longest valid beginning that leaves room for the three bytes of the mark. */
  lemma TruncateIs(value: Text, limit: int, valid: Text -> bool)
    ensures var out := Truncate(value, limit, valid);
      && (0 < limit && |value| <= limit ==> out == value)
      && (limit <= 0 || (limit <= 3 && |value| > limit) ==> out == "")
      && (3 < limit < |value| ==>
            exists n :: 0 <= n <= limit - 3 && out == value[..n] + "\U{E2}\U{80}\U{A6}" && (n == 0 || valid(value[..n]))
                        && forall m :: n < m <= limit - 3 ==> !valid(value[..m]))
  {
    if 3 < limit < |value| { CutIsLongest(value, limit - 3, valid); }
  }

  lemma {:induction false} CutIsLongest(value: Text, cut: nat, valid: Text -> bool)
    requires cut <= |value|
    ensures var n := CutAt(value, cut, valid);
      (n == 0 || valid(value[..n])) && forall m :: n < m <= cut ==> !valid(value[..m])
  {
    if cut > 0 && !valid(value[..cut]) { CutIsLongest(value, cut - 1, valid); }
  }

  // ----- Normalising -----------------------------------------------------------

  function CutAll(texts: seq<Text>, limits: seq<nat>, valid: Text -> bool): (r: seq<Text>)
    requires |texts| == |limits|
    ensures |r| == |texts|
  {
    seq(|texts|, i requires 0 <= i < |texts| => Truncate(texts[i], limits[i], valid))
  }

  /** Only an audit event keeps the audit texts. */
  function Normalise(texts: seq<Text>, audit: seq<Text>, valid: Text -> bool): Entry
    requires |texts| == 6 && |audit| == 6
  {
    Entry(CutAll(texts, LIMITS, valid), if texts[KIND] == "audit" then Some(CutAll(audit, AUDIT_LIMITS, valid)) else None)
  }

  predicate Limited(e: Entry) {
    && |e.texts| == 6 && (forall i :: 0 <= i < 6 ==> |e.texts[i]| <= LIMITS[i])
    && (e.audit.Some? ==> |e.audit.value| == 6 && forall i :: 0 <= i < 6 ==> |e.audit.value[i]| <= AUDIT_LIMITS[i])
  }

  lemma NormalisedIsLimited(texts: seq<Text>, audit: seq<Text>, valid: Text -> bool)
    requires |texts| == 6 && |audit| == 6
    ensures Limited(Normalise(texts, audit, valid))
  {
    forall i | 0 <= i < 6
      ensures |Truncate(texts[i], LIMITS[i], valid)| <= LIMITS[i]
      ensures |Truncate(audit[i], AUDIT_LIMITS[i], valid)| <= AUDIT_LIMITS[i]
    {
      TruncateFits(texts[i], LIMITS[i], valid);
      TruncateFits(audit[i], AUDIT_LIMITS[i], valid);
    }
  }

  /** An event comes through unchanged exactly if each text is within its limit, and its audit texts too. */
  lemma NormalisingKeeps(texts: seq<Text>, audit: seq<Text>, valid: Text -> bool)
    requires |texts| == 6 && |audit| == 6
    ensures var e := Normalise(texts, audit, valid);
      && (e.texts == texts <==>
            |texts[DESC]| <= 8192 && |texts[LABEL]| <= 2048 && |texts[HOST]| <= 512
            && |texts[KIND]| <= 64 && |texts[SEV]| <= 32 && |texts[TS]| <= 64)
      && (e.audit.Some? <==> texts[KIND] == "audit")
      && (e.audit.Some? ==>
            (e.audit.value == audit <==>
               |audit[0]| <= 64 && |audit[1]| <= 128 && |audit[2]| <= 512 && |audit[3]| <= 2048 && |audit[4]| <= 64 && |audit[5]| <= 32))
  {
    hide Truncate;
    forall i | 0 <= i < 6
      ensures Truncate(texts[i], LIMITS[i], valid) == texts[i] <==> |texts[i]| <= LIMITS[i]
      ensures Truncate(audit[i], AUDIT_LIMITS[i], valid) == audit[i] <==> |audit[i]| <= AUDIT_LIMITS[i]
    {
      TruncateFits(texts[i], LIMITS[i], valid);
      TruncateFits(audit[i], AUDIT_LIMITS[i], valid);
    }
    assert CutAll(texts, LIMITS, valid) == texts <==> forall i :: 0 <= i < 6 ==> |texts[i]| <= LIMITS[i];
    assert CutAll(audit, AUDIT_LIMITS, valid) == audit <==> forall i :: 0 <= i < 6 ==> |audit[i]| <= AUDIT_LIMITS[i];
  }

  // ----- The line ---------------------------------------------------------------

  function Quoted(texts: seq<Text>, enc: Encoding): nat {
    if texts == [] then 0 else Quoted(texts[..|texts| - 1], enc) + enc.quoted(texts[|texts| - 1])
  }

  function LineSize(e: Entry, enc: Encoding): nat {
    Quoted(e.texts, enc) + FRAME + (if e.audit.Some? then Quoted(e.audit.value, enc) + AUDIT_FRAME else 0) + 1
  }

  predicate Fits(e: Entry, enc: Encoding) {
    LineSize(e, enc) <= MAX_LINE
  }

  /** Where shortening goes on: the first text with something left, or the end. */
  function FirstLeft(texts: seq<Text>): (i: nat)
    ensures i <= |texts| && (i < |texts| ==> texts[i] != "")
    ensures forall j :: 0 <= j < i ==> texts[j] == ""
  {
    if texts == [] then 0 else if texts[0] != "" then 0 else 1 + FirstLeft(texts[1..])
  }

  /** A quarter shorter. */
  function Shortened(value: Text, valid: Text -> bool): Text {
    Truncate(value, if |value| * 3 / 4 >= |value| then |value| - 1 else |value| * 3 / 4, valid)
  }

  function Shrunk(e: Entry, valid: Text -> bool): Entry
    requires FirstLeft(e.texts) < |e.texts|
  {
    var i := FirstLeft(e.texts);
    e.(texts := e.texts[i := Shortened(e.texts[i], valid)])
  }

  /** The event as it ends up, and whether its line fits. */
  function Marshal(e: Entry, rounds: nat, enc: Encoding): (Entry, bool)
    decreases rounds
  {
    if rounds == 0 then (e, false)
    else if Fits(e, enc) then (e, true)
    else if FirstLeft(e.texts) == |e.texts| then (e, false)
    else Marshal(Shrunk(e, enc.valid), rounds - 1, enc)
  }

  method MarshalEventLine(ev: Entry, enc: Encoding) returns (e: Entry, ok: bool)
    ensures (e, ok) == Marshal(ev, ROUNDS, enc)
  {
    e, ok := ev, false;
    var attempts := 0;
    while attempts < ROUNDS
      invariant attempts <= ROUNDS && !ok
      invariant Marshal(ev, ROUNDS, enc) == Marshal(e, ROUNDS - attempts, enc)
    {
      if Fits(e, enc) {
        ok := true;
        return;
      }
      var i := FindLeft(e.texts);
      if i == |e.texts| { return; }
      var value := e.texts[i];
      var limit := |value| * 3 / 4;
      if limit >= |value| { limit := |value| - 1; }
      var cut := TruncateText(value, limit, enc.valid);
      e := e.(texts := e.texts[i := cut]);
      attempts := attempts + 1;
    }
  }

  method FindLeft(texts: seq<Text>) returns (i: nat)
    ensures i == FirstLeft(texts)
  {
    i := 0;
    while i < |texts| && texts[i] == ""
      invariant i <= |texts| && forall j :: 0 <= j < i ==> texts[j] == ""
    {
      i := i + 1;
    }
  }

  // ----- 128 rounds are always enough ---------------------------------------------

  /** Rounds that empty a text of n bytes. */
  function RoundsFor(n: nat): nat {
    if n == 0 then 0 else if n * 3 / 4 <= 3 then 1 else 1 + RoundsFor(n * 3 / 4)
  }

  lemma {:induction false} ShorterIsFaster(m: nat, n: nat)
    requires m <= n
    ensures RoundsFor(m) <= RoundsFor(n)
  {
    if m * 3 / 4 > 3 { ShorterIsFaster(m * 3 / 4, n * 3 / 4); }
  }

  lemma ShorteningHelps(value: Text, valid: Text -> bool)
    requires value != ""
    ensures RoundsFor(|Shortened(value, valid)|) < RoundsFor(|value|)
    ensures |Shortened(value, valid)| < |value|
  {
    var limit := |value| * 3 / 4;
    TruncateFits(value, limit, valid);
    if limit > |ELLIPSIS| { ShorterIsFaster(|Shortened(value, valid)|, limit); }
  }

  function RoundsLeft(texts: seq<Text>): nat {
    if texts == [] then 0 else RoundsLeft(texts[..|texts| - 1]) + RoundsFor(|texts[|texts| - 1]|)
  }

  lemma {:induction false} OneFewer(texts: seq<Text>, i: nat, value: Text)
    requires i < |texts| && RoundsFor(|value|) < RoundsFor(|texts[i]|)
    ensures RoundsLeft(texts[i := value]) < RoundsLeft(texts)
  {
    var n := |texts| - 1;
    if i < n {
      OneFewer(texts[..n], i, value);
      assert texts[i := value][..n] == texts[..n][i := value];
    } else {
      assert texts[i := value][..n] == texts[..n];
    }
  }

  function Emptied(e: Entry): Entry {
    e.(texts := seq(|e.texts|, _ => ""))
  }

  lemma {:induction false} EmptyIsShortest(texts: seq<Text>, enc: Encoding)
    requires Bounded(enc)
    ensures Quoted(seq(|texts|, _ => ""), enc) == 0 <= Quoted(texts, enc)
  {
    if texts != [] {
      var n := |texts| - 1;
      EmptyIsShortest(texts[..n], enc);
      assert seq(|texts|, _ => "")[..n] == seq(n, _ => "");
      assert enc.quoted("") <= 6 * enc.runes("") && enc.runes("") <= |""|;
    }
  }

  lemma OneRound(e: Entry, enc: Encoding)
    requires FirstLeft(e.texts) < |e.texts|
    ensures RoundsLeft(Shrunk(e, enc.valid).texts) < RoundsLeft(e.texts)
    ensures Emptied(Shrunk(e, enc.valid)) == Emptied(e)
  {
    var i := FirstLeft(e.texts);
    ShorteningHelps(e.texts[i], enc.valid);
    OneFewer(e.texts, i, Shortened(e.texts[i], enc.valid));
  }

  lemma MarshalStep(e: Entry, rounds: nat, enc: Encoding)
    ensures rounds == 0 ==> !Marshal(e, rounds, enc).1
    ensures rounds > 0 && Fits(e, enc) ==> Marshal(e, rounds, enc) == (e, true)
    ensures rounds > 0 && !Fits(e, enc) ==>
              if FirstLeft(e.texts) == |e.texts| then Marshal(e, rounds, enc) == (e, false)
              else Marshal(e, rounds, enc) == Marshal(Shrunk(e, enc.valid), rounds - 1, enc)
  {
  }

  /** Given rounds enough to empty it, an event is written exactly if it fits with all six texts empty. */
  lemma {:induction false} EnoughRounds(e: Entry, rounds: nat, enc: Encoding)
    requires Bounded(enc) && RoundsLeft(e.texts) < rounds
    ensures Marshal(e, rounds, enc).1 <==> Fits(Emptied(e), enc)
    decreases rounds
  {
    hide Marshal, Quoted, RoundsFor, Truncate;
    MarshalStep(e, rounds, enc);
    EmptyIsShortest(e.texts, enc);
    var i := FirstLeft(e.texts);
    if i == |e.texts| {
      assert Emptied(e) == e;
    } else if !Fits(e, enc) {
      OneRound(e, enc);
      EnoughRounds(Shrunk(e, enc.valid), rounds - 1, enc);
    }
  }

  lemma LimitedIsQuick(e: Entry)
    requires Limited(e)
    ensures RoundsLeft(e.texts) <= 121
  {
    hide RoundsFor, RoundsLeft;
    var t := e.texts;
    ShorterIsFaster(|t[DESC]|, 8192);
    ShorterIsFaster(|t[LABEL]|, 2048);
    ShorterIsFaster(|t[HOST]|, 512);
    ShorterIsFaster(|t[KIND]|, 64);
    ShorterIsFaster(|t[SEV]|, 32);
    ShorterIsFaster(|t[TS]|, 64);
    LimitRounds();
    SixParts(t);
  }

  /** Five rounds leave at most a quarter. */
  lemma QuarterInFive(n: nat)
    ensures RoundsFor(4 * n) <= RoundsFor(n) + 5
  {
    var a := 4 * n * 3 / 4;
    var b := a * 3 / 4;
    var c := b * 3 / 4;
    var d := c * 3 / 4;
    var e := d * 3 / 4;
    assert RoundsFor(a) <= RoundsFor(b) + 1 && RoundsFor(b) <= RoundsFor(c) + 1;
    assert RoundsFor(c) <= RoundsFor(d) + 1 && RoundsFor(d) <= RoundsFor(e) + 1;
    ShorterIsFaster(e, n);
  }

  lemma LimitRounds()
    ensures RoundsFor(8192) <= 31 && RoundsFor(2048) <= 26 && RoundsFor(512) <= 21 && RoundsFor(64) <= 16 && RoundsFor(32) <= 11
  {
    QuarterInFive(2048);
    QuarterInFive(512);
    QuarterInFive(128);
    QuarterInFive(32);
    QuarterInFive(16);
    QuarterInFive(8);
    QuarterInFive(4);
    QuarterInFive(2);
    QuarterInFive(1);
  }

  lemma SixParts(t: seq<Text>)
    requires |t| == 6
    ensures RoundsLeft(t) == RoundsFor(|t[0]|) + RoundsFor(|t[1]|) + RoundsFor(|t[2]|)
                             + RoundsFor(|t[3]|) + RoundsFor(|t[4]|) + RoundsFor(|t[5]|)
  {
    assert t[..5][..4] == t[..4] && t[..4][..3] == t[..3] && t[..3][..2] == t[..2] && t[..2][..1] == t[..1] && t[..1][..0] == [];
    assert RoundsLeft(t[..1]) == RoundsFor(|t[0]|);
    assert RoundsLeft(t[..2]) == RoundsLeft(t[..1]) + RoundsFor(|t[1]|);
    assert RoundsLeft(t[..3]) == RoundsLeft(t[..2]) + RoundsFor(|t[2]|);
    assert RoundsLeft(t[..4]) == RoundsLeft(t[..3]) + RoundsFor(|t[3]|);
  }

  lemma SixQuoted(t: seq<Text>, enc: Encoding)
    requires |t| == 6
    ensures Quoted(t, enc) == enc.quoted(t[0]) + enc.quoted(t[1]) + enc.quoted(t[2])
                              + enc.quoted(t[3]) + enc.quoted(t[4]) + enc.quoted(t[5])
  {
    assert t[..5][..4] == t[..4] && t[..4][..3] == t[..3] && t[..3][..2] == t[..2] && t[..2][..1] == t[..1] && t[..1][..0] == [];
    assert Quoted(t[..1], enc) == enc.quoted(t[0]);
    assert Quoted(t[..2], enc) == Quoted(t[..1], enc) + enc.quoted(t[1]);
    assert Quoted(t[..3], enc) == Quoted(t[..2], enc) + enc.quoted(t[2]);
    assert Quoted(t[..4], enc) == Quoted(t[..3], enc) + enc.quoted(t[3]);
  }

  /** The round limit never decides: an event is refused exactly if its audit texts alone leave no room. */
  lemma RefusedOnlyForSize(e: Entry, enc: Encoding)
    requires Bounded(enc) && Limited(e)
    ensures Marshal(e, ROUNDS, enc).1 <==>
            (e.audit.Some? ==> Quoted(e.audit.value, enc) + FRAME + AUDIT_FRAME + 1 <= MAX_LINE)
  {
    LimitedIsQuick(e);
    EnoughRounds(e, ROUNDS, enc);
    EmptyIsShortest(e.texts, enc);
  }

  // ----- What is written --------------------------------------------------------------

  /** What was written fits, within its limits, and is written the same when the file is replaced later. */
  lemma {:induction false} WrittenIsStable(e: Entry, rounds: nat, enc: Encoding)
    requires Marshal(e, rounds, enc).1
    ensures var w := Marshal(e, rounds, enc).0;
      && 2 <= LineSize(w, enc) <= MAX_LINE
      && Marshal(w, ROUNDS, enc) == (w, true)
      && w.audit == e.audit && |w.texts| == |e.texts|
      && forall i :: 0 <= i < |w.texts| ==> |w.texts[i]| <= |e.texts[i]|
    decreases rounds
  {
    if !Fits(e, enc) {
      ShorteningHelps(e.texts[FirstLeft(e.texts)], enc.valid);
      WrittenIsStable(Shrunk(e, enc.valid), rounds - 1, enc);
    }
  }

  /** A text is touched only once every text before it in the order is gone. */
  lemma {:induction false} ShortenedInOrder(e: Entry, rounds: nat, enc: Encoding, i: nat)
    requires i < |e.texts|
    ensures var w := Marshal(e, rounds, enc).0;
      |w.texts| == |e.texts| && (w.texts[i] != e.texts[i] ==> forall j :: 0 <= j < i ==> w.texts[j] == "")
    decreases rounds
  {
    if rounds > 0 && !Fits(e, enc) && FirstLeft(e.texts) < |e.texts| {
      var s := Shrunk(e, enc.valid);
      ShortenedInOrder(s, rounds - 1, enc, i);
      EmptyStays(s, rounds - 1, enc);
    }
  }

  lemma {:induction false} EmptyStays(e: Entry, rounds: nat, enc: Encoding)
    ensures |Marshal(e, rounds, enc).0.texts| == |e.texts|
    ensures forall j :: 0 <= j < |e.texts| && e.texts[j] == "" ==> Marshal(e, rounds, enc).0.texts[j] == ""
    decreases rounds
  {
    if rounds > 0 && !Fits(e, enc) && FirstLeft(e.texts) < |e.texts| {
      EmptyStays(Shrunk(e, enc.valid), rounds - 1, enc);
    }
  }

  const NONE: seq<Text> := ["", "", "", "", "", ""]

  /** The event of a line that was written for w. */
  function ReadBack(w: Entry, valid: Text -> bool): Entry
    requires |w.texts| == 6
  {
    Normalise(w.texts, if w.audit.Some? && |w.audit.value| == 6 then w.audit.value else NONE, valid)
  }

  /** The event with everything gone that is shortened before the kind. */
  function KindFirst(e: Entry): Entry
    requires |e.texts| == 6
  {
    e.(texts := e.texts[DESC := ""][LABEL := ""][HOST := ""])
  }

  /**
    Whether a written event is the same after it has been read back: an ordinary one always is, and an
    audit event, from whatever file, exactly if it fits without touching its kind, which is what keeps
    its audit texts.
   */
  lemma ReadsBackTheSame(texts: seq<Text>, audit: seq<Text>, enc: Encoding)
    requires |texts| == 6 && |audit| == 6 && Bounded(enc)
    requires Marshal(Normalise(texts, audit, enc.valid), ROUNDS, enc).1
    ensures var e := Normalise(texts, audit, enc.valid); var w := Marshal(e, ROUNDS, enc).0;
      && |w.texts| == 6 && Marshal(w, ROUNDS, enc) == (w, true)
      && (ReadBack(w, enc.valid) == w <==> (e.audit.Some? ==> Fits(KindFirst(e), enc)))
  {
    var e := Normalise(texts, audit, enc.valid);
    NormalisedIsLimited(texts, audit, enc.valid);
    WrittenIsStable(e, ROUNDS, enc);
    var w := Marshal(e, ROUNDS, enc).0;
    assert CutAll(w.texts, LIMITS, enc.valid) == w.texts;
    if w.audit.Some? { assert CutAll(w.audit.value, AUDIT_LIMITS, enc.valid) == w.audit.value; }
    CutIsNoAudit(texts[KIND], enc.valid);
    if e.audit.None? {
      OnlyDescriptionShrinks(e, ROUNDS, enc);
      assert w.texts[KIND] == w.texts[1..][KIND - 1] == e.texts[KIND];
    } else {
      KindSurvives(e, ROUNDS, enc);
    }
  }

  /** The kind is left alone exactly if the event fits once description, label and host are gone. */
  lemma {:induction false} KindSurvives(e: Entry, rounds: nat, enc: Encoding)
    requires Bounded(enc) && |e.texts| == 6 && e.texts[KIND] != "" && Marshal(e, rounds, enc).1
    ensures |Marshal(e, rounds, enc).0.texts| == 6
    ensures Marshal(e, rounds, enc).0.texts[KIND] == e.texts[KIND] <==> Fits(KindFirst(e), enc)
    decreases rounds
  {
    hide Marshal;
    if Fits(e, enc) { KindFirstIsShorter(e, enc); }
    MarshalStep(e, rounds, enc);
    if !Fits(e, enc) {
      var i := FirstLeft(e.texts);
      var s := Shrunk(e, enc.valid);
      ShorteningHelps(e.texts[i], enc.valid);
      if i < KIND {
        assert KindFirst(s) == KindFirst(e);
        KindSurvives(s, rounds - 1, enc);
      } else {
        assert KindFirst(e) == e;
        WrittenIsStable(s, rounds - 1, enc);
      }
    }
  }

  lemma KindFirstIsShorter(e: Entry, enc: Encoding)
    requires Bounded(enc) && |e.texts| == 6 && Fits(e, enc)
    ensures Fits(KindFirst(e), enc)
  {
    SixQuoted(e.texts, enc);
    SixQuoted(KindFirst(e).texts, enc);
    assert enc.quoted("") <= 6 * enc.runes("") && enc.runes("") <= |""|;
  }

  lemma CutIsNoAudit(kind: Text, valid: Text -> bool)
    ensures Truncate(kind, LIMITS[KIND], valid) == "audit" <==> kind == "audit"
  {
    if |kind| > LIMITS[KIND] {
      var t := Truncate(kind, LIMITS[KIND], valid);
      assert t[|t| - 1] == '\U{A6}';
      assert "audit"[4] == 't';
    }
  }

  predicate SameButDescription(e: Entry, w: Entry) {
    e.audit == w.audit && |e.texts| == |w.texts| > 0 && e.texts[1..] == w.texts[1..]
  }

  /** Every event that is not an audit record gets its line, and loses nothing but description. */
  lemma EventsAlwaysFit(texts: seq<Text>, audit: seq<Text>, enc: Encoding)
    requires |texts| == 6 && |audit| == 6 && Bounded(enc) && texts[KIND] != "audit"
    ensures var e := Normalise(texts, audit, enc.valid);
      Marshal(e, ROUNDS, enc).1 && SameButDescription(e, Marshal(e, ROUNDS, enc).0)
  {
    var e := Normalise(texts, audit, enc.valid);
    NormalisedIsLimited(texts, audit, enc.valid);
    RefusedOnlyForSize(e, enc);
    OnlyDescriptionShrinks(e, ROUNDS, enc);
  }

  /** By four bytes. */
  lemma FitsWithoutDescription(e: Entry, enc: Encoding)
    requires Bounded(enc) && Limited(e) && e.audit.None? && e.texts[DESC] == ""
    ensures Fits(e, enc)
  {
    SixQuoted(e.texts, enc);
    assert forall i :: 0 <= i < 6 ==> enc.quoted(e.texts[i]) <= 6 * enc.runes(e.texts[i]) && enc.runes(e.texts[i]) <= LIMITS[i];
  }

  lemma {:induction false} OnlyDescriptionShrinks(e: Entry, rounds: nat, enc: Encoding)
    requires Bounded(enc) && Limited(e) && e.audit.None?
    ensures SameButDescription(e, Marshal(e, rounds, enc).0)
    decreases rounds
  {
    hide Quoted, RoundsFor, Truncate;
    if rounds > 0 && !Fits(e, enc) {
      if e.texts[DESC] == "" {
        FitsWithoutDescription(e, enc);
      } else {
        ShorteningHelps(e.texts[DESC], enc.valid);
        OnlyDescriptionShrinks(Shrunk(e, enc.valid), rounds - 1, enc);
      }
    }
  }

  // ----- Audit records ------------------------------------------------------------------

  datatype AuditRecord = AuditRecord(id: Text, action: Text, target: Text, reason: Text, operator: Text, phase: Text)

  const MAX_REASON_RUNES: nat := 500

  /** The checks on a record, its texts already trimmed. */
  predicate Acceptable(r: AuditRecord, enc: Encoding) {
    && r.id != "" && r.action != "" && r.target != "" && r.operator != "" && r.phase != ""
    && r.reason != "" && enc.valid(r.reason) && enc.runes(r.reason) <= MAX_REASON_RUNES
    && |r.id| <= 64 && |r.action| <= 128 && |r.target| <= 512 && |r.operator| <= 64 && |r.phase| <= 32 && |r.reason| <= 2048
  }

  /** The event of a record, stamped with a time of at most 64 bytes. */
  function AuditTexts(r: AuditRecord, ts: Text): (t: seq<Text>)
    ensures |t| == 6
  {
    [r.reason, r.operator, r.target, "audit", "info", ts]
  }

  function AuditFields(r: AuditRecord): (t: seq<Text>)
    ensures |t| == 6
  {
    [r.id, r.action, r.target, r.reason, r.operator, r.phase]
  }

  /** An accepted record is written in full: neither cut nor shortened, whatever it contains. */
  lemma AuditIsWrittenWhole(r: AuditRecord, ts: Text, enc: Encoding)
    requires Bounded(enc) && Acceptable(r, enc) && |ts| <= 64
    ensures var e := Normalise(AuditTexts(r, ts), AuditFields(r), enc.valid);
      e == Entry(AuditTexts(r, ts), Some(AuditFields(r))) && Marshal(e, ROUNDS, enc) == (e, true)
  {
    var t, f := AuditTexts(r, ts), AuditFields(r);
    assert CutAll(t, LIMITS, enc.valid) == t;
    assert CutAll(f, AUDIT_LIMITS, enc.valid) == f;
    SixQuoted(t, enc);
    SixQuoted(f, enc);
    assert forall i :: 0 <= i < 6 ==> enc.quoted(t[i]) <= 6 * enc.runes(t[i]) && enc.runes(t[i]) <= |t[i]|;
    assert forall i :: 0 <= i < 6 ==> enc.quoted(f[i]) <= 6 * enc.runes(f[i]) && enc.runes(f[i]) <= |f[i]|;
  }

  /** Without those checks it would not always: texts within their limits can overflow the line for good. */
  lemma LongAuditIsRefused(enc: Encoding, reason: Text, target: Text, action: Text, id: Text)
    requires Bounded(enc) && |reason| == 2048 && |target| == 512 && |action| == 128 && |id| == 64
    requires forall s :: s in [reason, target, action, id] ==> enc.quoted(s) == 6 * |s|
    ensures var e := Entry(["", "", "", "audit", "", ""], Some([id, action, target, reason, "", ""]));
      Limited(e) && !Marshal(e, ROUNDS, enc).1
  {
    var f := [id, action, target, reason, "", ""];
    SixQuoted(f, enc);
    assert enc.quoted(f[0]) == 384 && enc.quoted(f[1]) == 768 && enc.quoted(f[2]) == 3072 && enc.quoted(f[3]) == 12288;
    RefusedOnlyForSize(Entry(["", "", "", "audit", "", ""], Some(f)), enc);
  }
}
