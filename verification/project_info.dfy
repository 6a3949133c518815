/**
  The project information the user types in: the `ProjectInfo` record of
  `components/project-info-form.tsx`, the form that reports every keystroke,
  and the section of `components/project-info-section.tsx` that keeps a local
  copy and reports it only on Save.

  Each input's `name` attribute is one of the four field names, so the
  computed-key update `{ ...info, [name]: value }` is modelled with a
  `Field` enumeration.
 */
module ProjectInfo {
  import opened Strings

  datatype Info = Info(name: string, author: string, description: string, customPrompt: string)

  /** The four inputs of the form, one per field. */
  datatype Field = Name | Author | Description | CustomPrompt

  const Blank: Info := Info("", "", "", "")

  function Get(info: Info, f: Field): string {
    match f
    case Name => info.name
    case Author => info.author
    case Description => info.description
    case CustomPrompt => info.customPrompt
  }

  /** `{ ...info, [name]: value }`: the named field takes the value and every other field is kept. */
  function With(info: Info, f: Field, value: string): (r: Info)
    ensures Get(r, f) == value
    ensures forall g :: g != f ==> Get(r, g) == Get(info, g)
  {
    match f
    case Name => info.(name := value)
    case Author => info.(author := value)
    case Description => info.(description := value)
    case CustomPrompt => info.(customPrompt := value)
  }

  /** Two records that agree on every field are the same record. */
  lemma FieldsDetermine(a: Info, b: Info)
    requires forall f :: Get(a, f) == Get(b, f)
    ensures a == b
  {
    assert Get(a, Name) == Get(b, Name);
    assert Get(a, Author) == Get(b, Author);
    assert Get(a, Description) == Get(b, Description);
    assert Get(a, CustomPrompt) == Get(b, CustomPrompt);
  }

  /** Writing back a field's own value changes nothing. */
  lemma WithSame(info: Info, f: Field)
    ensures With(info, f, Get(info, f)) == info
  {
    FieldsDetermine(With(info, f, Get(info, f)), info);
  }

  /** A second write to the same field replaces the first. */
  lemma WithTwice(info: Info, f: Field, v: string, w: string)
    ensures With(With(info, f, v), f, w) == With(info, f, w)
  {
    FieldsDetermine(With(With(info, f, v), f, w), With(info, f, w));
  }

  /** Writes to different fields commute. */
  lemma WithCommutes(info: Info, f: Field, g: Field, v: string, w: string)
    requires f != g
    ensures With(With(info, f, v), g, w) == With(With(info, g, w), f, v)
  {
    FieldsDetermine(With(With(info, f, v), g, w), With(With(info, g, w), f, v));
  }

  /** The form's starting record: `initialInfo` when given, otherwise four empty fields. */
  function InitialFormInfo(initialInfo: Option<Info>): (r: Info)
    ensures initialInfo.Some? ==> r == initialInfo.value
    ensures initialInfo.None? ==> forall f :: Get(r, f) == ""
  {
    if initialInfo.Some? then initialInfo.value else Blank
  }

  /** The form's new record and the record passed to `onInfoChange`. */
  datatype FormChange = FormChange(info: Info, reported: Info)

  /** `ProjectInfoForm.handleChange`: the edit is applied and reported at once. */
  function FormHandleChange(info: Info, f: Field, value: string): (r: FormChange)
    ensures r.reported == r.info
    ensures Get(r.info, f) == value
    ensures forall g :: g != f ==> Get(r.info, g) == Get(info, g)
  {
    var updated := With(info, f, value);
    FormChange(updated, updated)
  }

  /** Typing the same value again reports the record unchanged. */
  lemma FormRetypeUnchanged(info: Info, f: Field)
    ensures FormHandleChange(info, f, Get(info, f)).reported == info
  {
    WithSame(info, f);
  }

  /**
    `ProjectInfoSection`: the local buffer `info`, seeded from the
    `projectInfo` prop.
   */
  datatype SectionState = SectionState(local: Info)

  function SectionInit(prop: Info): (s: SectionState)
    ensures s.local == prop
  {
    SectionState(prop)
  }

  /** `ProjectInfoSection.handleChange`: only the buffer changes; nothing is reported. */
  function SectionEdit(s: SectionState, f: Field, value: string): (r: SectionState)
    ensures Get(r.local, f) == value
    ensures forall g :: g != f ==> Get(r.local, g) == Get(s.local, g)
  {
    SectionState(With(s.local, f, value))
  }

  /** `handleSave`: the value passed to `onInfoChange` is the current buffer. */
  function SectionSave(s: SectionState): (reported: Info)
    ensures forall f :: Get(reported, f) == Get(s.local, f)
  {
    s.local
  }

  /** The effect on `[projectInfo]`: a new prop replaces the buffer, unsaved edits included. */
  function SectionResync(s: SectionState, prop: Info): (r: SectionState)
    ensures r.local == prop
  {
    SectionState(prop)
  }

  /** A sequence of edits to the buffer. */
  datatype Edit = Edit(field: Field, value: string)

  function ApplyEdits(s: SectionState, edits: seq<Edit>): SectionState
    decreases |edits|
  {
    if |edits| == 0 then s
    else ApplyEdits(SectionEdit(s, edits[0].field, edits[0].value), edits[1..])
  }

  /** Edits followed by a new prop leave exactly the prop: edits that were not saved are lost. */
  lemma ResyncDiscardsEdits(s: SectionState, edits: seq<Edit>, prop: Info)
    ensures SectionSave(SectionResync(ApplyEdits(s, edits), prop)) == prop
  {
  }

  /** Saving after editing one field reports the old buffer with only that field changed. */
  lemma {:induction false} SaveAfterEdits(s: SectionState, edits: seq<Edit>, f: Field)
    requires forall k :: 0 <= k < |edits| ==> edits[k].field != f
    ensures Get(SectionSave(ApplyEdits(s, edits)), f) == Get(s.local, f)
    decreases |edits|
  {
    if |edits| > 0 {
      var next := SectionEdit(s, edits[0].field, edits[0].value);
      assert Get(next.local, f) == Get(s.local, f);
      SaveAfterEdits(next, edits[1..], f);
    }
  }
}
