/**
 * Applying a fix suggested by the Rosie analysis service to the document
 * open in the editor. A fix is a description and a list of edits; each edit
 * is an insertion ("add"), a replacement ("update") or a deletion
 * ("remove"), with positions given as line and column.
 *
 * The intention action applies the edits one at a time, in list order. Each
 * edit's positions are turned into offsets against the document as the
 * earlier edits have already changed it. Nothing is sorted. A failure stops
 * the batch, is logged, and leaves the edits already applied in place.
 */
module RosieFix {
  import opened Wrappers
  import opened RosiePositions

  /** The edit kinds, as the service spells them. */
  const RosieFixAdd: string := "add"
  const RosieFixUpdate: string := "update"
  const RosieFixRemove: string := "remove"

  /** One edit of a fix. `end` and `content` are nullable in the service's payload. */
  datatype RosieViolationFixEdit = RosieViolationFixEdit(
    start: RosiePosition,
    end: Option<RosiePosition>,
    content: Option<string>,
    editType: string)

  /** A fix: what it does, and its ordered edits. */
  datatype RosieViolationFix = RosieViolationFix(description: string, edits: seq<RosieViolationFixEdit>)

  // ---------------------------------------------------------------------------
  // Case-insensitive comparison of the edit kind.

  function ToUpperAscii(c: char): char
  {
    if 'a' <= c <= 'z' then (c as int - 32) as char else c
  }

  /** String.equalsIgnoreCase, with ASCII case folding. */
  predicate EqualsIgnoreCase(a: string, b: string)
  {
    |a| == |b| && forall i :: 0 <= i < |a| ==> a[i] == b[i] || ToUpperAscii(a[i]) == ToUpperAscii(b[i])
  }

  lemma EqualsIgnoreCaseTransitive(a: string, b: string, c: string)
    requires EqualsIgnoreCase(a, b) && EqualsIgnoreCase(b, c)
    ensures EqualsIgnoreCase(a, c)
  {
  }

  lemma EqualsIgnoreCaseSymmetric(a: string, b: string)
    requires EqualsIgnoreCase(a, b)
    ensures EqualsIgnoreCase(b, a)
  {
  }

  /** No edit kind matches two of the three constants. */
  lemma KindsExclusive(k: string)
    ensures !(EqualsIgnoreCase(k, RosieFixAdd) && EqualsIgnoreCase(k, RosieFixUpdate))
    ensures !(EqualsIgnoreCase(k, RosieFixAdd) && EqualsIgnoreCase(k, RosieFixRemove))
    ensures !(EqualsIgnoreCase(k, RosieFixUpdate) && EqualsIgnoreCase(k, RosieFixRemove))
  {
    if EqualsIgnoreCase(k, RosieFixUpdate) {
      assert ToUpperAscii(k[0]) == 'U';
    }
  }

  // ---------------------------------------------------------------------------
  // The editor's document operations, with the editor's bounds checks.

  /** `insertString(offset, s)`: fails unless 0 <= offset <= |t|. */
  function Insert(t: seq<char>, offset: int, s: string): (r: Option<seq<char>>)
    ensures r.Some? <==> 0 <= offset <= |t|
    ensures r.Some? ==> (|r.value| == |t| + |s| && r.value[..offset] == t[..offset]
                         && r.value[offset..offset + |s|] == s && r.value[offset + |s|..] == t[offset..])
  {
    if 0 <= offset <= |t| then Some(t[..offset] + s + t[offset..]) else None
  }

  /** `replaceString(start, end, s)`: fails unless 0 <= start <= end <= |t|. */
  function Replace(t: seq<char>, start: int, end: int, s: string): (r: Option<seq<char>>)
    ensures r.Some? <==> 0 <= start <= end <= |t|
    ensures r.Some? ==> (|r.value| == |t| - (end - start) + |s| && r.value[..start] == t[..start]
                         && r.value[start..start + |s|] == s && r.value[start + |s|..] == t[end..])
  {
    if 0 <= start <= end <= |t| then Some(t[..start] + s + t[end..]) else None
  }

  /** `deleteString(start, end)`: fails unless 0 <= start <= end <= |t|. */
  function Delete(t: seq<char>, start: int, end: int): (r: Option<seq<char>>)
    ensures r.Some? <==> 0 <= start <= end <= |t|
    ensures r.Some? ==> (|r.value| == |t| - (end - start) && r.value[..start] == t[..start]
                         && r.value[start..] == t[end..])
  {
    if 0 <= start <= end <= |t| then Some(t[..start] + t[end..]) else None
  }

  /** The editor's document, changed in place. */
  class Document {
    var text: seq<char>

    constructor (initial: seq<char>)
      ensures text == initial
    {
      text := initial;
    }

    method InsertString(offset: int, s: string) returns (ok: bool)
      modifies this
      ensures ok == Insert(old(text), offset, s).Some?
      ensures text == Insert(old(text), offset, s).GetOr(old(text))
    {
      ok := 0 <= offset <= |text|;
      if ok {
        text := text[..offset] + s + text[offset..];
      }
    }

    method ReplaceString(start: int, end: int, s: string) returns (ok: bool)
      modifies this
      ensures ok == Replace(old(text), start, end, s).Some?
      ensures text == Replace(old(text), start, end, s).GetOr(old(text))
    {
      ok := 0 <= start <= end <= |text|;
      if ok {
        text := text[..start] + s + text[end..];
      }
    }

    method DeleteString(start: int, end: int) returns (ok: bool)
      modifies this
      ensures ok == Delete(old(text), start, end).Some?
      ensures text == Delete(old(text), start, end).GetOr(old(text))
    {
      ok := 0 <= start <= end <= |text|;
      if ok {
        text := text[..start] + text[end..];
      }
    }
  }

  // ---------------------------------------------------------------------------
  // The specification of one edit and of a batch.

  /**
   * One edit against text `t`. `None` is an exception: a line outside the
   * document, a missing end position or content, or offsets the document
   * rejects. An edit whose kind is none of the three changes nothing.
   */
  function Step(t: seq<char>, e: RosieViolationFixEdit): (r: Option<seq<char>>)
    ensures r.None? ==> (EqualsIgnoreCase(e.editType, RosieFixAdd) || EqualsIgnoreCase(e.editType, RosieFixUpdate)
                         || EqualsIgnoreCase(e.editType, RosieFixRemove))
  {
    if EqualsIgnoreCase(e.editType, RosieFixAdd) then
      match (GetOffset(e.start, t), e.content)
      case (Some(s), Some(c)) => Insert(t, s, c)
      case _ => None
    else if EqualsIgnoreCase(e.editType, RosieFixUpdate) then
      if e.end.None? then None
      else
        match (GetOffset(e.start, t), GetOffset(e.end.value, t), e.content)
        case (Some(s), Some(f), Some(c)) => Replace(t, s, f, c)
        case _ => None
    else if EqualsIgnoreCase(e.editType, RosieFixRemove) then
      if e.end.None? then None
      else
        match (GetOffset(e.start, t), GetOffset(e.end.value, t))
        case (Some(s), Some(f)) => Delete(t, s, f)
        case _ => None
    else Some(t)
  }

  /** The document after a batch, and whether an exception stopped it. */
  datatype FixRun = FixRun(text: seq<char>, failed: bool)

  /** The edits applied in list order; after a failure the rest are skipped and nothing is undone. */
  function Apply(t: seq<char>, edits: seq<RosieViolationFixEdit>): FixRun
    decreases |edits|
  {
    if edits == [] then FixRun(t, false)
    else
      var prev := Apply(t, edits[..|edits| - 1]);
      if prev.failed then prev
      else
        match Step(prev.text, edits[|edits| - 1])
        case None => FixRun(prev.text, true)
        case Some(next) => FixRun(next, false)
  }

  /** What is left of a batch after a run so far. */
  function Continue(r: FixRun, edits: seq<RosieViolationFixEdit>): FixRun
  {
    if r.failed then r else Apply(r.text, edits)
  }

  // ---------------------------------------------------------------------------
  // Properties of a single edit.

  /** add inserts the content at the start offset; the text grows by its length. */
  lemma StepAdd(t: seq<char>, e: RosieViolationFixEdit, s: int)
    requires EqualsIgnoreCase(e.editType, RosieFixAdd) && e.content.Some?
    requires GetOffset(e.start, t) == Some(s)
    ensures Step(t, e) == Insert(t, s, e.content.value)
    ensures 0 <= s <= |t| ==> Step(t, e) == Some(t[..s] + e.content.value + t[s..])
    ensures 0 <= s <= |t| ==> |Step(t, e).value| == |t| + |e.content.value|
  {
  }

  /** update replaces [start, end) with the content, when s <= end <= |t|. */
  lemma StepUpdate(t: seq<char>, e: RosieViolationFixEdit, s: int, f: int)
    requires EqualsIgnoreCase(e.editType, RosieFixUpdate) && e.content.Some? && e.end.Some?
    requires GetOffset(e.start, t) == Some(s) && GetOffset(e.end.value, t) == Some(f)
    ensures Step(t, e) == Replace(t, s, f, e.content.value)
    ensures 0 <= s <= f <= |t| ==> Step(t, e) == Some(t[..s] + e.content.value + t[f..])
  {
    KindsExclusive(e.editType);
  }

  /** remove deletes [start, end); the text shrinks by end - start. */
  lemma StepRemove(t: seq<char>, e: RosieViolationFixEdit, s: int, f: int)
    requires EqualsIgnoreCase(e.editType, RosieFixRemove) && e.end.Some?
    requires GetOffset(e.start, t) == Some(s) && GetOffset(e.end.value, t) == Some(f)
    ensures Step(t, e) == Delete(t, s, f)
    ensures 0 <= s <= f <= |t| ==> Step(t, e) == Some(t[..s] + t[f..])
    ensures 0 <= s <= f <= |t| ==> |Step(t, e).value| == |t| - (f - s)
  {
    KindsExclusive(e.editType);
  }

  /** An edit whose kind is none of the three leaves the text as it is. */
  lemma StepUnknownKind(t: seq<char>, e: RosieViolationFixEdit)
    requires !EqualsIgnoreCase(e.editType, RosieFixAdd)
    requires !EqualsIgnoreCase(e.editType, RosieFixUpdate)
    requires !EqualsIgnoreCase(e.editType, RosieFixRemove)
    ensures Step(t, e) == Some(t)
  {
  }

  /** Kinds that differ only in case have the same effect. */
  lemma StepIgnoresCase(t: seq<char>, e: RosieViolationFixEdit, kind: string)
    requires EqualsIgnoreCase(e.editType, kind)
    ensures Step(t, e) == Step(t, e.(editType := kind))
  {
    EqualsIgnoreCaseSymmetric(e.editType, kind);
    forall c | c in [RosieFixAdd, RosieFixUpdate, RosieFixRemove]
      ensures EqualsIgnoreCase(e.editType, c) <==> EqualsIgnoreCase(kind, c)
    {
      if EqualsIgnoreCase(e.editType, c) {
        EqualsIgnoreCaseTransitive(kind, e.editType, c);
      }
      if EqualsIgnoreCase(kind, c) {
        EqualsIgnoreCaseTransitive(e.editType, kind, c);
      }
    }
  }

  // ---------------------------------------------------------------------------
  // Properties of a batch.

  /**
   * Splitting a batch: the second part runs against the document the first
   * part produced, and is skipped if the first part failed.
   */
  lemma {:induction false} ApplyAppend(t: seq<char>, a: seq<RosieViolationFixEdit>, b: seq<RosieViolationFixEdit>)
    ensures Apply(t, a + b) == Continue(Apply(t, a), b)
    decreases |b|
  {
    if b == [] {
      assert a + b == a;
    } else {
      var b' := b[..|b| - 1];
      assert (a + b)[..|a + b| - 1] == a + b';
      assert (a + b)[|a + b| - 1] == b[|b| - 1];
      ApplyAppend(t, a, b');
    }
  }

  /** The first edit is resolved against the original text, the rest against its result. */
  lemma ApplyFirstThenRest(t: seq<char>, e: RosieViolationFixEdit, rest: seq<RosieViolationFixEdit>)
    ensures Apply(t, [e] + rest) ==
      match Step(t, e)
      case None => FixRun(t, true)
      case Some(next) => Apply(next, rest)
  {
    ApplyAppend(t, [e], rest);
    assert [e][..0] == [];
  }

  /**
   * No rollback: when a batch fails, some edit k failed against the text
   * the first k edits produced, and that text is what remains.
   */
  lemma {:induction false} ApplyFailureKeepsPrefix(t: seq<char>, edits: seq<RosieViolationFixEdit>)
    requires Apply(t, edits).failed
    ensures exists k :: (0 <= k < |edits| && !Apply(t, edits[..k]).failed
                         && Step(Apply(t, edits[..k]).text, edits[k]).None?
                         && Apply(t, edits).text == Apply(t, edits[..k]).text)
    decreases |edits|
  {
    var n := |edits| - 1;
    var prev := Apply(t, edits[..n]);
    if prev.failed {
      ApplyFailureKeepsPrefix(t, edits[..n]);
      var k :| 0 <= k < n && !Apply(t, edits[..n][..k]).failed
        && Step(Apply(t, edits[..n][..k]).text, edits[..n][k]).None?
        && prev.text == Apply(t, edits[..n][..k]).text;
      assert edits[..n][..k] == edits[..k];
    }
  }

  /** The two edits of the order example below: an update of [3, 5) and an insertion at 1. */
  function ExampleUpdate(): RosieViolationFixEdit
  {
    RosieViolationFixEdit(RosiePosition(1, 3), Some(RosiePosition(1, 5)), Some("X"), "UPDATE")
  }

  function ExampleAdd(): RosieViolationFixEdit
  {
    RosieViolationFixEdit(RosiePosition(1, 1), None, Some("Y"), "add")
  }

  /** The text arithmetic of the examples below, kept apart from the edit semantics. */
  lemma ExampleSplices()
    ensures "abcdef"[..3] + "X" + "abcdef"[5..] == "abcXf"
    ensures "abcXf"[..1] + "Y" + "abcXf"[1..] == "aYbcXf"
    ensures "abcdef"[..1] + "Y" + "abcdef"[1..] == "aYbcdef"
    ensures "aYbcdef"[..3] + "X" + "aYbcdef"[5..] == "aYbXef"
  {
  }

  /** On the first line an edit's columns are its offsets: an add there inserts at its column. */
  lemma AddOnFirstLine(t: seq<char>, col: Int32, c: string, kind: string)
    requires EqualsIgnoreCase(kind, RosieFixAdd) && 0 <= col <= |t|
    ensures Step(t, RosieViolationFixEdit(RosiePosition(1, col), None, Some(c), kind)) == Some(t[..col] + c + t[col..])
  {
    GetOffsetFirstLine(col, t);
    StepAdd(t, RosieViolationFixEdit(RosiePosition(1, col), None, Some(c), kind), col);
  }

  /** On the first line, an update replaces the characters between its two columns. */
  lemma UpdateOnFirstLine(t: seq<char>, s: Int32, f: Int32, c: string, kind: string)
    requires EqualsIgnoreCase(kind, RosieFixUpdate) && 0 <= s <= f <= |t|
    ensures Step(t, RosieViolationFixEdit(RosiePosition(1, s), Some(RosiePosition(1, f)), Some(c), kind))
            == Some(t[..s] + c + t[f..])
  {
    GetOffsetFirstLine(s, t);
    GetOffsetFirstLine(f, t);
    StepUpdate(t, RosieViolationFixEdit(RosiePosition(1, s), Some(RosiePosition(1, f)), Some(c), kind), s, f);
  }

  /** On the first line, an update whose end column is past the text fails. */
  lemma UpdatePastEndFails(t: seq<char>, s: Int32, f: Int32, c: string, kind: string)
    requires EqualsIgnoreCase(kind, RosieFixUpdate) && |t| < f
    ensures Step(t, RosieViolationFixEdit(RosiePosition(1, s), Some(RosiePosition(1, f)), Some(c), kind)) == None
  {
    GetOffsetFirstLine(s, t);
    GetOffsetFirstLine(f, t);
    StepUpdate(t, RosieViolationFixEdit(RosiePosition(1, s), Some(RosiePosition(1, f)), Some(c), kind), s, f);
  }

  lemma ExampleUpdateFirst()
    ensures Step("abcdef", ExampleUpdate()) == Some("abcXf")
  {
    UpdateOnFirstLine("abcdef", 3, 5, "X", "UPDATE");
    ExampleSplices();
  }

  lemma ExampleAddSecond()
    ensures Step("abcXf", ExampleAdd()) == Some("aYbcXf")
  {
    AddOnFirstLine("abcXf", 1, "Y", "add");
    ExampleSplices();
  }

  lemma ExampleAddFirst()
    ensures Step("abcdef", ExampleAdd()) == Some("aYbcdef")
  {
    AddOnFirstLine("abcdef", 1, "Y", "add");
    ExampleSplices();
  }

  lemma ExampleUpdateSecond()
    ensures Step("aYbcdef", ExampleUpdate()) == Some("aYbXef")
  {
    UpdateOnFirstLine("aYbcdef", 3, 5, "X", "UPDATE");
    ExampleSplices();
  }

  /** A batch of two edits, each resolved against the text the previous one left. */
  lemma ApplyTwo(t: seq<char>, e1: RosieViolationFixEdit, e2: RosieViolationFixEdit, t1: seq<char>)
    requires Step(t, e1) == Some(t1)
    ensures Apply(t, [e1, e2]) == match Step(t1, e2) case None => FixRun(t1, true) case Some(t2) => FixRun(t2, false)
  {
    ApplyFirstThenRest(t, e1, [e2]);
    assert [e1] + [e2] == [e1, e2];
    ApplyFirstThenRest(t1, e2, []);
    assert [e2] + [] == [e2];
  }

  /**
   * The code is order-sensitive: the same two edits, listed the other way
   * round, give another text, because each edit's positions are resolved
   * against the text the earlier edits left.
   */
  lemma ApplyDependsOnOrder()
    ensures Apply("abcdef", [ExampleUpdate(), ExampleAdd()]) == FixRun("aYbcXf", false)
    ensures Apply("abcdef", [ExampleAdd(), ExampleUpdate()]) == FixRun("aYbXef", false)
  {
    ExampleUpdateFirst();
    ExampleAddSecond();
    ExampleAddFirst();
    ExampleUpdateSecond();
    ApplyTwo("abcdef", ExampleUpdate(), ExampleAdd(), "abcXf");
    ApplyTwo("abcdef", ExampleAdd(), ExampleUpdate(), "aYbcdef");
  }

  /** An update whose end column lies past the text, used below. */
  function ExampleBadUpdate(): RosieViolationFixEdit
  {
    RosieViolationFixEdit(RosiePosition(1, 3), Some(RosiePosition(1, 40)), Some("X"), "update")
  }

  lemma ExampleBadUpdateFails()
    ensures Step("aYbcdef", ExampleBadUpdate()) == None
  {
    UpdatePastEndFails("aYbcdef", 3, 40, "X", "update");
  }

  /**
   * No rollback, concretely: an insertion followed by an update that the
   * document rejects. The insertion stays, and the batch reports failure.
   */
  lemma PartialBatchStays()
    ensures Apply("abcdef", [ExampleAdd(), ExampleBadUpdate()]) == FixRun("aYbcdef", true)
  {
    ExampleAddFirst();
    ExampleBadUpdateFails();
    ApplyTwo("abcdef", ExampleAdd(), ExampleBadUpdate(), "aYbcdef");
  }

  // ---------------------------------------------------------------------------

  /** The intention action that applies one fix. */
  class RosieAnnotationFix {
    const rosieViolationFix: RosieViolationFix

    constructor (fix: RosieViolationFix)
      ensures rosieViolationFix == fix
    {
      rosieViolationFix := fix;
    }

    /** The label shown to the user. */
    function GetText(): (r: string)
      ensures |r| == |rosieViolationFix.description| + 5
      ensures r[..5] == "Fix: " && r[5..] == rosieViolationFix.description
    {
      "Fix: " + rosieViolationFix.description
    }

    /**
     * Applies the edits in list order to `document`. An exception ends the
     * batch and is caught and logged (`errorLogged`); the edits already
     * applied stay.
     */
    method Invoke(document: Document) returns (errorLogged: bool)
      modifies document
      ensures document.text == Apply(old(document.text), rosieViolationFix.edits).text
      ensures errorLogged == Apply(old(document.text), rosieViolationFix.edits).failed
    {
      var edits := rosieViolationFix.edits;
      var i := 0;
      while i < |edits|
        invariant 0 <= i <= |edits|
        invariant Apply(old(document.text), edits[..i]) == FixRun(document.text, false)
      {
        var edit := edits[i];
        ghost var before := document.text;
        KindsExclusive(edit.editType);
        var ok := true;
        if EqualsIgnoreCase(edit.editType, RosieFixAdd) {
          var start := GetOffset(edit.start, document.text);
          if start.None? || edit.content.None? {
            ok := false;
          } else {
            ok := document.InsertString(start.value, edit.content.value);
          }
        }
        if EqualsIgnoreCase(edit.editType, RosieFixUpdate) {
          var start := GetOffset(edit.start, document.text);
          if start.None? || edit.end.None? {
            ok := false;
          } else {
            var end := GetOffset(edit.end.value, document.text);
            if end.None? || edit.content.None? {
              ok := false;
            } else {
              ok := document.ReplaceString(start.value, end.value, edit.content.value);
            }
          }
        }
        if EqualsIgnoreCase(edit.editType, RosieFixRemove) {
          var start := GetOffset(edit.start, document.text);
          if start.None? || edit.end.None? {
            ok := false;
          } else {
            var end := GetOffset(edit.end.value, document.text);
            if end.None? {
              ok := false;
            } else {
              ok := document.DeleteString(start.value, end.value);
            }
          }
        }
        assert edits[..i + 1][..i] == edits[..i];
        if !ok {
          assert document.text == before && Step(before, edit).None?;
          ApplyAppend(old(document.text), edits[..i + 1], edits[i + 1..]);
          assert edits[..i + 1] + edits[i + 1..] == edits;
          errorLogged := true;
          return;
        }
        assert Step(before, edit) == Some(document.text);
        i := i + 1;
      }
      assert edits[..i] == edits;
      errorLogged := false;
    }
  }
}
