/** The Bean Validation constraints declared on Task: @NotBlank and
    @Size(min = 3, max = 100) on the title, @Size(max = 500) on the
    description. A null value satisfies @Size; @NotBlank rejects null and any
    string whose trim() is empty. */
module Validation {
  import opened Wrappers
  import opened Tasks

  /** A reported violation: the field it is declared on and its message. */
  datatype FieldError = FieldError(field: string, message: string)

  /** The three constraints declared on Task. */
  datatype Constraint = TitleRequired | TitleSize | DescriptionSize

  const TitleMin: nat := 3
  const TitleMax: nat := 100
  const DescriptionMax: nat := 500

  const TitleRequiredMessage := "Title is required"
  const TitleSizeMessage := "Title must be between 3 and 100 characters"
  const DescriptionSizeMessage := "Description must not exceed 500 characters"

  /** The field and message a violated constraint is reported with. */
  function Report(c: Constraint): (e: FieldError)
    ensures c.DescriptionSize? <==> e.field == "description"
    ensures c.DescriptionSize? || e.field == "title"
    ensures c.TitleRequired? ==> e.message == "Title is required"
    ensures c.TitleSize? ==> e.message == "Title must be between 3 and 100 characters"
    ensures c.DescriptionSize? ==> e.message == "Description must not exceed 500 characters"
  {
    match c
    case TitleRequired => FieldError("title", TitleRequiredMessage)
    case TitleSize => FieldError("title", TitleSizeMessage)
    case DescriptionSize => FieldError("description", DescriptionSizeMessage)
  }

  /** The characters String.trim drops: every code point up to U+0020. */
  predicate Trimmable(c: char) {
    c <= ' '
  }

  /** The first index at or after i whose character survives trim(), or
      |s| when there is none. */
  function LeadingEnd(s: string, i: nat): (n: nat)
    requires i <= |s|
    ensures i <= n <= |s|
    ensures forall k :: i <= k < n ==> Trimmable(s[k])
    ensures n == |s| || !Trimmable(s[n])
    decreases |s| - i
  {
    if i < |s| && Trimmable(s[i]) then LeadingEnd(s, i + 1) else i
  }

  /** The index just past the last character in s[lo..j] that survives
      trim(), or lo when there is none. */
  function TrailingStart(s: string, lo: nat, j: nat): (m: nat)
    requires lo <= j <= |s|
    ensures lo <= m <= j
    ensures forall k :: m <= k < j ==> Trimmable(s[k])
    ensures m == lo || !Trimmable(s[m - 1])
    decreases j - lo
  {
    if lo < j && Trimmable(s[j - 1]) then TrailingStart(s, lo, j - 1) else j
  }

  /** r is s[a..b], and everything s has outside that slice is trimmable. */
  predicate TrimmedSlice(s: string, r: string, a: int, b: int) {
    && 0 <= a <= b <= |s| && r == s[a..b]
    && (forall i :: 0 <= i < a ==> Trimmable(s[i]))
    && (forall i :: b <= i < |s| ==> Trimmable(s[i]))
  }

  /** String.trim: the string with its leading and trailing trimmable
      characters removed. It is empty exactly when every character is
      trimmable. */
  function Trim(s: string): (r: string)
    ensures r == [] <==> forall i :: 0 <= i < |s| ==> Trimmable(s[i])
    ensures r != [] ==> !Trimmable(r[0]) && !Trimmable(r[|r| - 1])
    ensures exists a, b :: TrimmedSlice(s, r, a, b)
  {
    var a := LeadingEnd(s, 0);
    var b := TrailingStart(s, a, |s|);
    assert TrimmedSlice(s, s[a..b], a, b);
    s[a..b]
  }

  /** @NotBlank: not null and at least one character survives trim(). */
  predicate NotBlank(s: Option<string>) {
    s.Some? && Trim(s.value) != []
  }

  /** @Size(min, max): null is valid, otherwise the length is in range. */
  predicate SizeWithin(s: Option<string>, min: nat, max: nat) {
    s.None? || min <= |s.value| <= max
  }

  /** Whether t breaks the constraint c. */
  predicate Violates(t: Task, c: Constraint) {
    match c
    case TitleRequired => !NotBlank(t.title)
    case TitleSize => !SizeWithin(t.title, TitleMin, TitleMax)
    case DescriptionSize => !SizeWithin(t.description, 0, DescriptionMax)
  }

  /** Every constraint of Task that t violates. */
  function Violations(t: Task): (v: set<Constraint>)
    ensures TitleRequired in v <==>
      (t.title.None? || forall i :: 0 <= i < |t.title.value| ==> Trimmable(t.title.value[i]))
    ensures TitleSize in v <==>
      (t.title.Some? && (|t.title.value| < 3 || 100 < |t.title.value|))
    ensures DescriptionSize in v <==>
      (t.description.Some? && 500 < |t.description.value|)
  {
    set c | c in {TitleRequired, TitleSize, DescriptionSize} && Violates(t, c)
  }

  predicate IsValid(t: Task) {
    Violations(t) == {}
  }

  /** Validity depends on the title and description alone, so two tasks
      with the same details are both valid or both invalid. */
  lemma SameDetailsValid(a: Task, b: Task)
    requires SameDetails(a, b)
    ensures IsValid(a) <==> IsValid(b)
  {
  }

  /** The violated constraints listed once each. Bean Validation reports
      them in no fixed order; this list uses declaration order as one
      representative. */
  function ViolationList(t: Task): (cs: seq<Constraint>)
    ensures forall c :: c in cs <==> c in Violations(t)
    ensures forall i, j :: 0 <= i < j < |cs| ==> cs[i] != cs[j]
  {
    var a := if Violates(t, TitleRequired) then [TitleRequired] else [];
    var b := if Violates(t, TitleSize) then [TitleSize] else [];
    var d := if Violates(t, DescriptionSize) then [DescriptionSize] else [];
    var cs := a + b + d;
    assert forall c :: c in cs <==> c in Violations(t) by {
      forall c ensures c in cs <==> c in Violations(t) {
        assert c in cs <==> c in a || c in b || c in d;
        assert c == TitleRequired || c == TitleSize || c == DescriptionSize;
      }
    }
    cs
  }

  /** Distinct constraints are reported differently. */
  lemma ReportInjective(c: Constraint, d: Constraint)
    ensures Report(c) == Report(d) ==> c == d
  {
  }

  /** The field errors of a rejected body, one per violated constraint. */
  function ValidationErrors(t: Task): (errs: seq<FieldError>)
    ensures |errs| == |ViolationList(t)|
    ensures forall i :: 0 <= i < |errs| ==> errs[i] == Report(ViolationList(t)[i])
    ensures forall c :: c in Violations(t) <==> Report(c) in errs
    ensures forall i, j :: 0 <= i < j < |errs| ==> errs[i] != errs[j]
  {
    var cs := ViolationList(t);
    var errs := seq(|cs|, i requires 0 <= i < |cs| => Report(cs[i]));
    assert forall i, j :: 0 <= i < j < |errs| ==> errs[i] != errs[j] by {
      forall i, j | 0 <= i < j < |errs| ensures errs[i] != errs[j] {
        ReportInjective(cs[i], cs[j]);
      }
    }
    assert forall c :: Report(c) in errs ==> c in Violations(t) by {
      forall c | Report(c) in errs ensures c in Violations(t) {
        var i :| 0 <= i < |errs| && errs[i] == Report(c);
        ReportInjective(c, cs[i]);
      }
    }
    errs
  }

  /** A task is valid exactly when its title is present, has a character
      above U+0020 and is 3 to 100 long, and its description is absent or at
      most 500 long. */
  lemma ValidIff(t: Task)
    ensures IsValid(t) <==>
      && t.title.Some?
      && (exists i :: 0 <= i < |t.title.value| && t.title.value[i] > ' ')
      && 3 <= |t.title.value| <= 100
      && (t.description.None? || |t.description.value| <= 500)
  {
  }

  /** A title of two characters breaks the size constraint and nothing
      else, and is reported once. */
  lemma ShortTitleRejected()
    ensures Violations(TaskOf(Some("AB"), Some("Description"), false)) == {TitleSize}
    ensures ValidationErrors(TaskOf(Some("AB"), Some("Description"), false)) == [Report(TitleSize)]
  {
    var t := TaskOf(Some("AB"), Some("Description"), false);
    assert |t.title.value| == 2 && |t.description.value| == 11;
    assert !Violates(t, TitleRequired) by {
      assert !Trimmable(t.title.value[0]);
    }
    assert Violates(t, TitleSize) && !Violates(t, DescriptionSize);
    assert ViolationList(t) == [TitleSize];
  }

  /** An empty title is both blank and too short. */
  lemma EmptyTitleRejected()
    ensures Violations(TaskOf(Some(""), Some("Description"), false)) == {TitleRequired, TitleSize}
  {
  }

  /** completed carries no constraint: flipping it never changes the verdict. */
  lemma CompletedUnconstrained(t: Task)
    ensures Violations(t.(completed := !t.completed)) == Violations(t)
  {
  }
}
