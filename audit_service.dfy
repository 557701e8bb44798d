/**
 * The audit sink: payload minification (`formatXml`) and the field mapping
 * from an audit record to the stored entity, with storage failures contained.
 */
module AuditService {
  import opened Wrappers
  import opened JavaText
  import opened AuditLog

  /** `s` starts with a match of the regex `>\s+<`. */
  predicate GapAtStart(s: string) {
    && |s| > 0 && s[0] == '>'
    && SpaceRun(s[1..]) > 0
    && 1 + SpaceRun(s[1..]) < |s|
    && s[1 + SpaceRun(s[1..])] == '<'
  }

  /**
   * `s.replaceAll(">\\s+<", "><")`. The matcher scans left to right; a match
   * keeps its '>' and '<' and drops the space run between them. Resuming the
   * scan at the kept '<' instead of after it changes nothing, since no match
   * starts with '<'.
   */
  function CollapseTagGaps(s: string): string
    decreases |s|
  {
    if |s| == 0 then ""
    else if GapAtStart(s) then [s[0]] + CollapseTagGaps(s[1 + SpaceRun(s[1..])..])
    else [s[0]] + CollapseTagGaps(s[1..])
  }

  /** No suffix of `s` starts with a match of `>\s+<`. */
  predicate GapFree(s: string)
    decreases |s|
  {
    |s| == 0 || (!GapAtStart(s) && GapFree(s[1..]))
  }

  /** `s` contains a '>' followed by one or more `\s` characters and then '<'. */
  ghost predicate HasTagGap(s: string) {
    exists i, j :: 0 <= i && i + 1 < j < |s| && s[i] == '>' && s[j] == '<'
                && forall k :: i < k < j ==> IsRegexSpace(s[k])
  }

  /** `formatXml`: null stays null; otherwise collapse the tag gaps, then trim. */
  function FormatXml(xml: Option<string>): (r: Option<string>)
    ensures r.None? <==> xml.None?
    ensures xml == Some("") ==> r == Some("")
  {
    match xml
    case None => None
    case Some(s) => Some(Trim(CollapseTagGaps(s)))
  }

  // ----- Lemmas about CollapseTagGaps -----

  lemma SpaceRunExact(t: string, m: nat)
    requires m < |t| && !IsRegexSpace(t[m])
    requires forall k :: 0 <= k < m ==> IsRegexSpace(t[k])
    ensures SpaceRun(t) == m
  {
  }

  lemma CollapseHead(s: string)
    requires |s| > 0
    ensures |CollapseTagGaps(s)| > 0 && CollapseTagGaps(s)[0] == s[0]
  {
  }

  /** A leading run of spaces passes through unchanged. */
  lemma {:induction false} CollapseSpacePrefix(s: string, n: nat)
    requires n <= SpaceRun(s)
    ensures CollapseTagGaps(s) == s[..n] + CollapseTagGaps(s[n..])
    decreases n
  {
    if n > 0 {
      assert !GapAtStart(s);
      CollapseSpacePrefix(s[1..], n - 1);
      assert s[1..][n - 1..] == s[n..];
      assert s[..n] == [s[0]] + s[1..][..n - 1];
    }
  }

  /** The replacement leaves no match behind. */
  lemma {:induction false} CollapseGapFree(s: string)
    ensures GapFree(CollapseTagGaps(s))
    decreases |s|
  {
    if |s| > 0 {
      var out := CollapseTagGaps(s);
      if GapAtStart(s) {
        var t := s[1 + SpaceRun(s[1..])..];
        CollapseGapFree(t);
        CollapseHead(t);
        assert out[1..] == CollapseTagGaps(t);
        assert SpaceRun(out[1..]) == 0;
      } else {
        var rest := s[1..];
        CollapseGapFree(rest);
        assert out[1..] == CollapseTagGaps(rest);
        if s[0] == '>' {
          var k := SpaceRun(rest);
          CollapseSpacePrefix(rest, k);
          var tail := rest[k..];
          if |tail| > 0 {
            CollapseHead(tail);
            assert out[1..][k] == rest[k];
            SpaceRunExact(out[1..], k);
          } else {
            assert out[1..] == rest[..k];
          }
        }
      }
    }
  }

  /** On a string without matches the replacement is the identity. */
  lemma {:induction false} CollapseIdentity(s: string)
    requires GapFree(s)
    ensures CollapseTagGaps(s) == s
    decreases |s|
  {
    if |s| > 0 {
      CollapseIdentity(s[1..]);
    }
  }

  /** A space run that ends inside `x` is not lengthened by what follows `x`. */
  lemma SpaceRunConcat(x: string, y: string)
    requires SpaceRun(x) < |x|
    ensures SpaceRun(x + y) == SpaceRun(x)
  {
    var m := SpaceRun(x);
    assert (x + y)[m] == x[m];
    forall k | 0 <= k < m ensures IsRegexSpace((x + y)[k]) {
      assert (x + y)[k] == x[k];
    }
    SpaceRunExact(x + y, m);
  }

  /** A piece can end a match-free stretch only after a character that is neither '>' nor `\s`. */
  predicate EndsAtText(a: string) {
    |a| > 0 ==> a[|a| - 1] != '>' && !IsRegexSpace(a[|a| - 1])
  }

  /** How many characters one step of the scan consumes: a whole match, or one character. */
  function Step(s: string): (n: nat)
    requires |s| > 0
    ensures 1 <= n <= |s|
  {
    if GapAtStart(s) then 1 + SpaceRun(s[1..]) else 1
  }

  lemma CollapseByStep(s: string)
    requires |s| > 0
    ensures CollapseTagGaps(s) == [s[0]] + CollapseTagGaps(s[Step(s)..])
  {
  }

  /** The first step on `a + b` is the first step on `a` when `a` ends at text. */
  lemma StepConcat(a: string, b: string)
    requires |a| > 0 && EndsAtText(a)
    ensures Step(a + b) == Step(a)
  {
    var s := a + b;
    assert s[1..] == a[1..] + b;
    if a[0] == '>' {
      var run := SpaceRun(a[1..]);
      // The run after '>' stops inside `a`: the last character of `a` is neither '>' nor a space.
      assert run < |a[1..]|;
      SpaceRunConcat(a[1..], b);
      assert s[1 + run] == a[1 + run];
      assert GapAtStart(s) <==> GapAtStart(a);
    }
  }

  /**
   * Cutting the input after a character that is neither '>' nor whitespace
   * commutes with the replacement: no match spans the cut, so each side is
   * rewritten on its own.
   */
  lemma {:induction false} CollapseSplitsAtText(a: string, b: string)
    requires EndsAtText(a)
    ensures CollapseTagGaps(a + b) == CollapseTagGaps(a) + CollapseTagGaps(b)
    decreases |a|
  {
    if |a| == 0 {
      assert a + b == b;
    } else {
      var n := Step(a);
      StepConcat(a, b);
      CollapseByStep(a);
      CollapseByStep(a + b);
      assert (a + b)[0] == a[0];
      assert (a + b)[n..] == a[n..] + b;
      assert EndsAtText(a[n..]);
      CollapseSplitsAtText(a[n..], b);
    }
  }

  /** A match-free piece that ends at text is kept verbatim, whatever follows it. */
  lemma KeepsTextPrefix(a: string, b: string)
    requires GapFree(a) && EndsAtText(a)
    ensures CollapseTagGaps(a + b) == a + CollapseTagGaps(b)
  {
    CollapseSplitsAtText(a, b);
    CollapseIdentity(a);
  }

  /** Whitespace after a '>' that is not closed by '<' is not part of a match and is kept. */
  lemma {:induction false} KeepsUnclosedRun(s: string)
    requires |s| > 0 && s[0] == '>'
    requires 1 + SpaceRun(s[1..]) < |s| ==> s[1 + SpaceRun(s[1..])] != '<'
    ensures var n := 1 + SpaceRun(s[1..]);
      CollapseTagGaps(s) == s[..n] + CollapseTagGaps(s[n..])
  {
    var k := SpaceRun(s[1..]);
    assert !GapAtStart(s);
    CollapseSpacePrefix(s[1..], k);
    assert s[1..][k..] == s[1 + k..];
    assert s[..1 + k] == [s[0]] + s[1..][..k];
  }

  /** The replacement deletes characters and adds none; every deleted one is blank. */
  lemma {:induction false} CollapseDeletesOnlyBlanks(s: string)
    ensures DeletesOnlyBlanks(CollapseTagGaps(s), s)
    decreases |s|
  {
    if |s| > 0 {
      var out := CollapseTagGaps(s);
      if GapAtStart(s) {
        var k := SpaceRun(s[1..]);
        var t := s[1 + k..];
        CollapseDeletesOnlyBlanks(t);
        assert s[1..][k..|s[1..]|] == t;
        SliceDeletesOnlyBlanks(s[1..], k, |s[1..]|);
        DeletesOnlyBlanksTransitive(CollapseTagGaps(t), t, s[1..]);
        assert out[1..] == CollapseTagGaps(t);
      } else {
        CollapseDeletesOnlyBlanks(s[1..]);
        assert out[1..] == CollapseTagGaps(s[1..]);
      }
    }
  }

  // ----- GapFree is the recursive form of "no tag gap" -----

  lemma {:induction false} GapFreeSuffix(s: string, i: nat)
    requires GapFree(s) && i <= |s|
    ensures GapFree(s[i..])
    decreases i
  {
    if i > 0 {
      GapFreeSuffix(s[1..], i - 1);
      assert s[1..][i - 1..] == s[i..];
    }
  }

  /** A gap-free string has, between any '>' and a later '<', some non-space character. */
  lemma GapFreeBreaksEveryGap(s: string, i: nat, j: nat)
    requires GapFree(s)
    requires i + 1 < j < |s| && s[i] == '>' && s[j] == '<'
    ensures exists k :: i < k < j && !IsRegexSpace(s[k])
  {
    GapFreeSuffix(s, i);
    var t := s[i..];
    var n := SpaceRun(t[1..]);
    assert t[j - i] == '<';
    if n < j - i - 1 {
      assert !IsRegexSpace(s[i + 1 + n]) by { assert s[i + 1 + n] == t[1..][n]; }
    } else {
      assert false;
    }
  }

  lemma {:induction false} GapFreeNoTagGap(s: string)
    ensures GapFree(s) <==> !HasTagGap(s)
    decreases |s|
  {
    if GapFree(s) {
      forall i, j | 0 <= i && i + 1 < j < |s| && s[i] == '>' && s[j] == '<'
        ensures !forall k :: i < k < j ==> IsRegexSpace(s[k])
      {
        GapFreeBreaksEveryGap(s, i, j);
      }
    } else if GapAtStart(s) {
      var j := 1 + SpaceRun(s[1..]);
      assert forall k :: 0 < k < j ==> IsRegexSpace(s[k]) by {
        forall k | 0 < k < j ensures IsRegexSpace(s[k]) {
          assert s[k] == s[1..][k - 1];
        }
      }
      assert s[0] == '>' && s[j] == '<';
    } else {
      var rest := s[1..];
      GapFreeNoTagGap(rest);
      var i, j :| 0 <= i && i + 1 < j < |rest| && rest[i] == '>' && rest[j] == '<'
               && forall k :: i < k < j ==> IsRegexSpace(rest[k]);
      assert forall k :: i + 1 < k < j + 1 ==> IsRegexSpace(s[k]) by {
        forall k | i + 1 < k < j + 1 ensures IsRegexSpace(s[k]) {
          assert s[k] == rest[k - 1];
        }
      }
      assert s[i + 1] == '>' && s[j + 1] == '<';
    }
  }

  /** A slice of a string without tag gaps has none either. */
  lemma NoTagGapSlice(s: string, a: nat, b: nat)
    requires a <= b <= |s| && !HasTagGap(s)
    ensures !HasTagGap(s[a..b])
  {
    var t := s[a..b];
    forall i, j | 0 <= i && i + 1 < j < |t| && t[i] == '>' && t[j] == '<'
      ensures !forall k :: i < k < j ==> IsRegexSpace(t[k])
    {
      assert s[a + i] == '>' && s[a + j] == '<';
      assert !forall k :: a + i < k < a + j ==> IsRegexSpace(s[k]);
      var k :| a + i < k < a + j && !IsRegexSpace(s[k]);
      assert t[k - a] == s[k];
    }
  }

  // ----- Properties of formatXml -----

  /** After formatting, no '>' is followed by a run of `\s` and then '<'. */
  lemma FormatXmlRemovesTagGaps(s: string)
    ensures !HasTagGap(FormatXml(Some(s)).value)
  {
    var c := CollapseTagGaps(s);
    CollapseGapFree(s);
    GapFreeNoTagGap(c);
    var r := Trim(c);
    NoTagGapSlice(c, LeadingBlanks(c), LeadingBlanks(c) + |r|);
    assert r == c[LeadingBlanks(c)..LeadingBlanks(c) + |r|];
    assert FormatXml(Some(s)).value == r;
  }

  /** Formatting only deletes characters, all of them blank, so it never lengthens. */
  lemma FormatXmlOnlyDeletes(s: string)
    ensures DeletesOnlyBlanks(FormatXml(Some(s)).value, s)
    ensures |FormatXml(Some(s)).value| <= |s|
  {
    var c := CollapseTagGaps(s);
    CollapseDeletesOnlyBlanks(s);
    TrimDeletesOnlyBlanks(c);
    DeletesOnlyBlanksTransitive(Trim(c), c, s);
    DeletesOnlyBlanksShorter(Trim(c), s);
  }

  /** Formatting twice is formatting once. */
  lemma FormatXmlIdempotent(xml: Option<string>)
    ensures FormatXml(FormatXml(xml)) == FormatXml(xml)
  {
    if xml.Some? {
      var r := FormatXml(xml).value;
      FormatXmlRemovesTagGaps(xml.value);
      GapFreeNoTagGap(r);
      CollapseIdentity(r);
      TrimIdempotent(CollapseTagGaps(xml.value));
    }
  }

  /**
   * Formatting leaves a payload unchanged exactly when it has no tag gap and
   * no blank at either end: whitespace anywhere else (text content, spaces
   * inside tags) survives.
   */
  lemma FormatXmlUnchangedIff(s: string)
    ensures FormatXml(Some(s)) == Some(s)
        <==> !HasTagGap(s) && (|s| > 0 ==> !IsBlank(s[0]) && !IsBlank(s[|s| - 1]))
  {
    if !HasTagGap(s) && (|s| > 0 ==> !IsBlank(s[0]) && !IsBlank(s[|s| - 1])) {
      GapFreeNoTagGap(s);
      CollapseIdentity(s);
      assert LeadingBlanks(s) == 0;
      assert s[0..] == s;
      assert TrailingBlanks(s) == 0;
      assert Trim(s) == s;
    } else {
      FormatXmlRemovesTagGaps(s);
      var r := Trim(CollapseTagGaps(s));
      assert |r| > 0 ==> !IsBlank(r[0]) && !IsBlank(r[|r| - 1]);
      assert !HasTagGap(r);
      assert r != s;
    }
  }

  // ----- The stored entity and the sink -----

  /** The persisted row; `id` and the audit timestamps are assigned by storage. */
  datatype SoapAuditLogEntity = SoapAuditLogEntity(
    ipOrigin: Option<string>,
    soapMethod: Option<string>,
    durationMs: Option<int>,
    requestPayload: Option<string>,
    responsePayload: Option<string>,
    status: Option<RequestStatus>,
    endpointClass: Option<string>,
    errorMessage: Option<string>)

  /** The entity `saveAuditLog` builds from a record. */
  function ToEntity(log: SoapAuditLog): (e: SoapAuditLogEntity)
    ensures e.ipOrigin == log.ipOrigin && e.soapMethod == log.soapMethod
    ensures e.durationMs == log.durationMs && e.status == log.status
    ensures e.endpointClass == log.endpointClass && e.errorMessage == log.errorMessage
    ensures e.requestPayload.None? <==> log.requestPayload.None?
    ensures e.responsePayload.None? <==> log.responsePayload.None?
  {
    SoapAuditLogEntity(
      log.ipOrigin, log.soapMethod, log.durationMs,
      FormatXml(log.requestPayload), FormatXml(log.responsePayload),
      log.status, log.endpointClass, log.errorMessage)
  }

  /** The stored payloads are the record's payloads with tag gaps and outer blanks removed. */
  lemma ToEntityPayloads(log: SoapAuditLog)
    ensures ToEntity(log).requestPayload.Some? ==>
              && DeletesOnlyBlanks(ToEntity(log).requestPayload.value, log.requestPayload.value)
              && !HasTagGap(ToEntity(log).requestPayload.value)
    ensures ToEntity(log).responsePayload.Some? ==>
              && DeletesOnlyBlanks(ToEntity(log).responsePayload.value, log.responsePayload.value)
              && !HasTagGap(ToEntity(log).responsePayload.value)
  {
    if log.requestPayload.Some? {
      FormatXmlOnlyDeletes(log.requestPayload.value);
      FormatXmlRemovesTagGaps(log.requestPayload.value);
    }
    if log.responsePayload.Some? {
      FormatXmlOnlyDeletes(log.responsePayload.value);
      FormatXmlRemovesTagGaps(log.responsePayload.value);
    }
  }

  /**
   * The audit service in front of the append-only repository. `stored` is the
   * repository's content; `saveCalls` records every `repository.save` attempt.
   */
  class SoapAuditService {
    var stored: seq<SoapAuditLogEntity>
    ghost var saveCalls: seq<SoapAuditLogEntity>

    constructor ()
      ensures stored == [] && saveCalls == []
    {
      stored := [];
      saveCalls := [];
    }

    /**
     * `saveAuditLog`: build the entity and attempt one save. `saveFails` says
     * whether the repository throws; the failure is caught and logged, so the
     * method returns normally in both cases and the row is simply not stored.
     */
    method SaveAuditLog(log: SoapAuditLog, saveFails: bool)
      modifies this
      ensures saveCalls == old(saveCalls) + [ToEntity(log)]
      ensures stored == if saveFails then old(stored) else old(stored) + [ToEntity(log)]
    {
      var entity := ToEntity(log);
      saveCalls := saveCalls + [entity];
      if !saveFails {
        stored := stored + [entity];
      }
    }
  }
}
