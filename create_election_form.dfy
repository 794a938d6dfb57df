/** The candidate list of the admin "create election" form
    (src/app/admin/create/page.tsx): editing, adding and removing name slots,
    and the check made on submission. */
module CreateElectionForm {
  import opened Lists

  /** The form starts with two empty slots. */
  const InitialSlots: seq<string> := ["", ""]

  const TooFewCandidatesAlert: string := "Please provide at least 2 candidates."

  // ---------------------------------------------------------------------
  // Slot editing

  /** `handleCandidateChange`: copy the list, then overwrite one slot of the copy. */
  method HandleCandidateChange(candidates: seq<string>, index: nat, value: string) returns (r: seq<string>)
    requires index < |candidates|
    ensures |r| == |candidates| && r[index] == value
    ensures forall j :: 0 <= j < |r| && j != index ==> r[j] == candidates[j]
    ensures r == candidates[index := value]
  {
    var copy := new string[|candidates|](j requires 0 <= j < |candidates| => candidates[j]);
    copy[index] := value;
    r := copy[..];
  }

  /** `addCandidateSlot`: one more empty slot at the end. */
  function AddCandidateSlot(candidates: seq<string>): seq<string> {
    candidates + [""]
  }

  /** `removeCandidateSlot`: keep every slot whose position differs from `index`. */
  function RemoveCandidateSlot(candidates: seq<string>, index: int): (r: seq<string>)
    ensures |r| == if 0 <= index < |candidates| then |candidates| - 1 else |candidates|
    ensures forall j :: 0 <= j < |r| ==> r[j] in candidates
    decreases |candidates|
  {
    if |candidates| == 0 then []
    else (if index == 0 then [] else [candidates[0]]) + RemoveCandidateSlot(candidates[1..], index - 1)
  }

  /** Removing drops exactly the slot at `index` and keeps the others in
      order; an index outside the list removes nothing. */
  lemma {:induction false} RemoveCandidateSlotDropsOne(candidates: seq<string>, index: int)
    ensures RemoveCandidateSlot(candidates, index)
      == if 0 <= index < |candidates| then candidates[..index] + candidates[index + 1..] else candidates
    decreases |candidates|
  {
    if |candidates| > 0 {
      var rest := candidates[1..];
      var tail := RemoveCandidateSlot(rest, index - 1);
      RemoveCandidateSlotDropsOne(rest, index - 1);
      if index == 0 {
        assert RemoveCandidateSlot(candidates, index) == tail;
        assert tail == rest;
        assert candidates[..0] + candidates[1..] == rest;
      } else if 0 < index < |candidates| {
        assert RemoveCandidateSlot(candidates, index) == [candidates[0]] + tail;
        assert tail == rest[..index - 1] + rest[index..];
        assert candidates[..index] == [candidates[0]] + rest[..index - 1];
        assert candidates[index + 1..] == rest[index..];
      } else {
        assert RemoveCandidateSlot(candidates, index) == [candidates[0]] + tail;
        assert tail == rest;
        assert [candidates[0]] + rest == candidates;
      }
    }
  }

  // ---------------------------------------------------------------------
  // Validation on submit

  /** The code points that JavaScript's `String.prototype.trim` removes: the
      WhiteSpace and LineTerminator characters of ECMAScript. */
  predicate IsWhitespace(ch: char) {
    var n := ch as int;
    || n == 0x09 || n == 0x0A || n == 0x0B || n == 0x0C || n == 0x0D || n == 0x20
    || n == 0xA0 || n == 0x1680 || (0x2000 <= n <= 0x200A) || n == 0x2028 || n == 0x2029
    || n == 0x202F || n == 0x205F || n == 0x3000 || n == 0xFEFF
  }

  predicate AllWhitespace(s: string) {
    forall i :: 0 <= i < |s| ==> IsWhitespace(s[i])
  }

  /** `s` without its leading white space. */
  function TrimStart(s: string): (r: string)
    ensures |r| <= |s| && r == s[|s| - |r|..]
    ensures r == [] || !IsWhitespace(r[0])
    ensures AllWhitespace(s[..|s| - |r|])
  {
    if |s| > 0 && IsWhitespace(s[0]) then
      var r := TrimStart(s[1..]);
      assert s[..|s| - |r|] == [s[0]] + s[1..][..|s| - 1 - |r|];
      r
    else s
  }

  /** `s` without its trailing white space. */
  function TrimEnd(s: string): (r: string)
    ensures |r| <= |s| && r == s[..|r|]
    ensures r == [] || !IsWhitespace(r[|r| - 1])
    ensures AllWhitespace(s[|r|..])
  {
    if |s| > 0 && IsWhitespace(s[|s| - 1]) then
      var r := TrimEnd(s[..|s| - 1]);
      assert s[|r|..] == s[..|s| - 1][|r|..] + [s[|s| - 1]];
      r
    else s
  }

  /** `s.trim()`: neither end of the result is white space. */
  function Trim(s: string): (r: string)
    ensures |r| <= |s|
    ensures r == [] || (!IsWhitespace(r[0]) && !IsWhitespace(r[|r| - 1]))
  {
    var t := TrimStart(s);
    var r := TrimEnd(t);
    assert r == [] || r[0] == t[0];
    r
  }

  /** A name trims to the empty string exactly when it is all white space. */
  lemma TrimEmptyIffBlank(s: string)
    ensures Trim(s) == "" <==> AllWhitespace(s)
  {
    var t := TrimStart(s);
    if t != [] {
      assert t[0] == s[|s| - |t|];
    } else {
      assert s[..|s|] == s;
    }
  }

  /** `c.trim() !== ""` */
  predicate NonBlank(c: string) {
    Trim(c) != ""
  }

  /** The names submitted: the non-blank slots, in slot order. */
  function ValidCandidates(candidates: seq<string>): seq<string> {
    Filter(candidates, NonBlank)
  }

  /** What is submitted is exactly the slots that are not all white space,
      each unchanged and in slot order. */
  lemma ValidCandidatesAreNonBlankSlots(candidates: seq<string>)
    ensures forall i :: 0 <= i < |ValidCandidates(candidates)| ==>
      ValidCandidates(candidates)[i] in candidates && !AllWhitespace(ValidCandidates(candidates)[i])
    ensures forall i :: 0 <= i < |candidates| && !AllWhitespace(candidates[i]) ==>
      candidates[i] in ValidCandidates(candidates)
    ensures forall a, b :: ValidCandidates(a + b) == ValidCandidates(a) + ValidCandidates(b)
  {
    var v := ValidCandidates(candidates);
    forall i | 0 <= i < |v|
      ensures !AllWhitespace(v[i])
    {
      TrimEmptyIffBlank(v[i]);
    }
    forall i | 0 <= i < |candidates| && !AllWhitespace(candidates[i])
      ensures candidates[i] in v
    {
      TrimEmptyIffBlank(candidates[i]);
    }
    forall a, b
      ensures ValidCandidates(a + b) == ValidCandidates(a) + ValidCandidates(b)
    {
      FilterDistributes(a, b, NonBlank);
    }
  }

  /** An added slot is empty, so adding one never changes what would be submitted. */
  lemma AddSlotKeepsSubmission(candidates: seq<string>)
    ensures |AddCandidateSlot(candidates)| == |candidates| + 1
    ensures ValidCandidates(AddCandidateSlot(candidates)) == ValidCandidates(candidates)
  {
    FilterDistributes(candidates, [""], NonBlank);
    FilterSingleton("", NonBlank);
    assert Trim("") == "";
  }

  /** The outcome of `handleSubmit`. */
  datatype Submission =
    | NotSignedIn
    | Rejected(alert: string)
    | Submitted(title: string, description: string, endTime: string, candidateNames: seq<string>, creatorId: int)

  /** `handleSubmit`: nothing without a signed-in user; an alert and no
      `createElection` call when fewer than two names are non-blank; otherwise
      `createElection` with the non-blank names. `userId` is the signed-in
      user's id, if any. */
  function HandleSubmit(userId: Option<int>, title: string, description: string, endTime: string, candidates: seq<string>)
    : (r: Submission)
    ensures userId.None? <==> r.NotSignedIn?
    ensures r.Rejected? <==> userId.Some? && |ValidCandidates(candidates)| < 2
    ensures r.Rejected? ==> r.alert == TooFewCandidatesAlert
    ensures r.Submitted? ==>
      && r.candidateNames == ValidCandidates(candidates)
      && |r.candidateNames| >= 2
      && r.creatorId == userId.value
      && r.title == title && r.description == description && r.endTime == endTime
  {
    match userId
    case None => NotSignedIn
    case Some(id) =>
      var valid := ValidCandidates(candidates);
      if |valid| < 2 then Rejected(TooFewCandidatesAlert)
      else Submitted(title, description, endTime, valid, id)
  }

  // ---------------------------------------------------------------------
  // What the rendered form lets an administrator do

  /** One click or keystroke on the candidate list. */
  datatype SlotEdit = Change(index: int, value: string) | Add | Remove(index: int)

  /** The form renders an input per slot and the add button always, and a
      remove button per slot only while there are more than two slots. */
  predicate Offered(candidates: seq<string>, edit: SlotEdit) {
    match edit
    case Change(i, _) => 0 <= i < |candidates|
    case Add => true
    case Remove(i) => |candidates| > 2 && 0 <= i < |candidates|
  }

  /** The list after one edit; a `Change` gives what `HandleCandidateChange`
      returns, `candidates[i := v]`. */
  function ApplyEdit(candidates: seq<string>, edit: SlotEdit): seq<string>
    requires Offered(candidates, edit)
  {
    match edit
    case Change(i, v) => candidates[i := v]
    case Add => AddCandidateSlot(candidates)
    case Remove(i) => RemoveCandidateSlot(candidates, i)
  }

  /** Every edit of the run is offered by the form in the state it is made in. */
  predicate OfferedRun(candidates: seq<string>, edits: seq<SlotEdit>)
    decreases |edits|
  {
    |edits| == 0 || (Offered(candidates, edits[0]) && OfferedRun(ApplyEdit(candidates, edits[0]), edits[1..]))
  }

  function ApplyEdits(candidates: seq<string>, edits: seq<SlotEdit>): seq<string>
    requires OfferedRun(candidates, edits)
    decreases |edits|
  {
    if |edits| == 0 then candidates else ApplyEdits(ApplyEdit(candidates, edits[0]), edits[1..])
  }

  /** No run of offered edits takes a list of at least two slots below two. */
  lemma {:induction false} EditsKeepTwoSlots(candidates: seq<string>, edits: seq<SlotEdit>)
    requires |candidates| >= 2 && OfferedRun(candidates, edits)
    ensures |ApplyEdits(candidates, edits)| >= 2
    decreases |edits|
  {
    if |edits| > 0 {
      if edits[0].Remove? {
        RemoveCandidateSlotDropsOne(candidates, edits[0].index);
      }
      EditsKeepTwoSlots(ApplyEdit(candidates, edits[0]), edits[1..]);
    }
  }

  /** From the initial two empty slots, the form never shows fewer than two. */
  lemma SlotsNeverBelowTwo(edits: seq<SlotEdit>)
    requires OfferedRun(InitialSlots, edits)
    ensures |ApplyEdits(InitialSlots, edits)| >= 2
  {
    EditsKeepTwoSlots(InitialSlots, edits);
  }
}
