/**
  Editing the string lists of the search form: the form's own add/remove
  handlers with their per-field checks, and the stand-alone tag input.
*/
module TagEditing {
  import opened Wrappers
  import opened Text
  import Lists

  /** The list fields of the search form that are edited one tag at a time. */
  datatype TagField = MainActivity | LegalNature | State | City | Neighborhood | ZipCode | Ddd

  /** `[A-Za-zÀ-ÖØ-öø-ÿ]`: ASCII letters and the Latin-1 letters. */
  predicate IsLatinLetter(c: char) {
    || IsAsciiLetter(c)
    || ('\U{C0}' <= c <= '\U{D6}') || ('\U{D8}' <= c <= '\U{F6}') || ('\U{F8}' <= c <= '\U{FF}')
  }

  /** `/^[A-Za-zÀ-ÖØ-öø-ÿ\s]+$/`: one or more letters or white-space characters. */
  predicate IsPlaceName(s: string) {
    |s| > 0 && forall i :: 0 <= i < |s| ==> IsLatinLetter(s[i]) || IsSpace(s[i])
  }

  /** `/^\d{n}$/`: exactly `n` ASCII digits. */
  predicate DigitsOfLength(s: string, n: nat) {
    |s| == n && forall i :: 0 <= i < |s| ==> IsDigit(s[i])
  }

  /** The validator each add button passes to the handler. */
  predicate Accepts(field: TagField, s: string) {
    match field
    case MainActivity => AllDigits(s)
    case LegalNature => AllDigits(s)
    case State => s != []
    case City => IsPlaceName(s)
    case Neighborhood => IsPlaceName(s)
    case ZipCode => DigitsOfLength(s, 8)
    case Ddd => DigitsOfLength(s, 2)
  }

  /** Which toast, if any, an add shows. */
  datatype AddOutcome = Invalid | Duplicate | Added

  /** The list after an add, what is left in the text box, and the outcome. */
  datatype TagEdit = TagEdit(list: seq<string>, input: string, outcome: AddOutcome)

  /**
    The form's `handleAddItem`: the validator sees the trimmed text, but the duplicate
    check and the stored tag use the text as typed. An invalid item keeps the text box;
    a duplicate or a successful add clears it.
  */
  function AddItem(list: seq<string>, input: string, validator: Option<string -> bool>): (r: TagEdit)
    ensures r.outcome == Invalid <==> Blank(input) || (validator.Some? && !validator.value(Trim(input)))
    ensures r.outcome == Duplicate <==> r.outcome != Invalid && input in list
    ensures r.outcome == Invalid ==> r.list == list && r.input == input
    ensures r.outcome == Duplicate ==> r.list == list && r.input == []
    ensures r.outcome == Added ==> r.list == list + [input] && r.input == [] && input !in list
  {
    var trimmed := Trim(input);
    TrimIdempotent(input);
    if Trim(trimmed) == [] || (validator.Some? && !validator.value(trimmed)) then
      TagEdit(list, input, Invalid)
    else if input in list then
      TagEdit(list, [], Duplicate)
    else
      TagEdit(list + [input], [], Added)
  }

  /** An add on one of the form's seven list fields, with that field's validator. */
  function AddTag(field: TagField, list: seq<string>, input: string): TagEdit {
    AddItem(list, input, Some(s => Accepts(field, s)))
  }

  /** The form's `handleRemoveItem`: every tag equal to `v` goes, the rest keep their order. */
  function RemoveItem(list: seq<string>, v: string): (r: seq<string>)
    ensures v !in r
    ensures forall t :: t != v ==> (t in r <==> t in list)
    ensures Lists.IsSubseq(r, list)
    ensures forall t :: multiset(r)[t] == if t == v then 0 else multiset(list)[t]
  {
    Lists.RemoveAll(list, v)
  }

  /** An add changes the list exactly when it succeeds, and then exactly by appending the typed text. */
  lemma AddTagOutcome(field: TagField, list: seq<string>, input: string)
    ensures AddTag(field, list, input).outcome == Added <==>
      !Blank(input) && Accepts(field, Trim(input)) && input !in list
    ensures AddTag(field, list, input).list ==
      if !Blank(input) && Accepts(field, Trim(input)) && input !in list then list + [input] else list
  {
  }

  /** Every stored tag, once trimmed, passes its field's check: adds keep this true. */
  predicate AllAccepted(field: TagField, list: seq<string>) {
    forall i :: 0 <= i < |list| ==> Accepts(field, Trim(list[i]))
  }

  lemma AddTagKeepsAccepted(field: TagField, list: seq<string>, input: string)
    requires AllAccepted(field, list)
    ensures AllAccepted(field, AddTag(field, list, input).list)
  {
    AddTagOutcome(field, list, input);
    if AddTag(field, list, input).outcome == Added {
      AcceptedAppend(field, list, input);
    }
  }

  /** Appending a tag that passes the check keeps every tag passing it. */
  lemma AcceptedAppend(field: TagField, list: seq<string>, x: string)
    requires AllAccepted(field, list) && Accepts(field, Trim(x))
    ensures AllAccepted(field, list + [x])
  {
    var l := list + [x];
    forall i | 0 <= i < |l|
      ensures Accepts(field, Trim(l[i]))
    {
      if i < |list| {
        assert l[i] == list[i];
      }
    }
  }

  /** Adds never store the same text twice. */
  lemma AddTagKeepsNoDuplicates(field: TagField, list: seq<string>, input: string)
    requires Lists.NoDuplicates(list)
    ensures Lists.NoDuplicates(AddTag(field, list, input).list)
  {
    if AddTag(field, list, input).outcome == Added {
      Lists.AppendFreshKeepsNoDuplicates(list, input);
    }
  }

  /** Removing the tag just added gives back the list as it was. */
  lemma AddThenRemoveTag(field: TagField, list: seq<string>, input: string)
    requires AddTag(field, list, input).outcome == Added
    ensures RemoveItem(AddTag(field, list, input).list, input) == list
  {
    Lists.AppendThenRemove(list, input);
  }

  /** Removal keeps the list free of repeats, and a second removal changes nothing. */
  lemma RemoveItemFacts(list: seq<string>, v: string)
    ensures Lists.NoDuplicates(list) ==> Lists.NoDuplicates(RemoveItem(list, v))
    ensures RemoveItem(RemoveItem(list, v), v) == RemoveItem(list, v)
  {
    if Lists.NoDuplicates(list) {
      Lists.RemoveAllKeepsNoDuplicates(list, v);
    }
    Lists.RemoveAllIdempotent(list, v);
  }

  /** A leading space followed by a tag trims back to that tag. */
  lemma {:induction false} TrimPadded(t: string, pad: char)
    requires |t| > 0 && !IsSpace(t[0]) && !IsSpace(t[|t| - 1])
    requires IsSpace(pad)
    ensures Trim([pad] + t) == t
  {
    var s := [pad] + t;
    assert s[1..] == t;
    assert TrimStart(t) == t;
    assert TrimStart(s) == t;
    assert TrimEnd(t) == t;
  }

  /** A code typed with one leading space trims back to the code, passes the CNAE check and is new. */
  lemma PaddedCodeFacts(code: string, pad: char)
    requires AllDigits(code) && IsSpace(pad)
    ensures !Blank([pad] + code) && Accepts(MainActivity, Trim([pad] + code)) && [pad] + code !in [code]
  {
    assert IsDigit(code[0]) && IsDigit(code[|code| - 1]);
    TrimPadded(code, pad);
    assert |[pad] + code| != |code|;
  }

  /**
    Because the duplicate check compares the untrimmed text, a code already in the list
    is stored a second time when it is typed with a leading space.
  */
  lemma PaddedCodeStoredAgain(code: string, pad: char)
    requires AllDigits(code) && IsSpace(pad)
    ensures AddTag(MainActivity, [code], [pad] + code).list == [code, [pad] + code]
  {
    PaddedCodeFacts(code, pad);
    AddTagOutcome(MainActivity, [code], [pad] + code);
  }

  /** The stand-alone tag input: its list (a prop fed back by the parent) and its text box. */
  datatype TagInput = TagInput(value: seq<string>, text: string)

  /** `MultiTagInput.handleAddItem`: the trimmed text is appended when non-empty and new, and the box cleared. */
  function TagInputAdd(s: TagInput): (r: TagInput)
    ensures r == s || (r.text == [] && r.value == s.value + [Trim(s.text)])
    ensures r != s <==> !Blank(s.text) && Trim(s.text) !in s.value
  {
    var trimmed := Trim(s.text);
    if trimmed != [] && trimmed !in s.value then TagInput(s.value + [trimmed], []) else s
  }

  /** `MultiTagInput.handleRemoveItem`. */
  function TagInputRemove(s: TagInput, item: string): (r: TagInput)
    ensures r.text == s.text
    ensures item !in r.value
    ensures forall t :: t != item ==> (t in r.value <==> t in s.value)
    ensures Lists.IsSubseq(r.value, s.value)
    ensures forall t :: multiset(r.value)[t] == if t == item then 0 else multiset(s.value)[t]
  {
    s.(value := Lists.RemoveAll(s.value, item))
  }

  datatype KeyPress = Enter | OtherKey(name: string)

  /** `handleKeyDown`: Enter adds exactly as the button does, any other key leaves the state alone. */
  function TagInputKeyDown(s: TagInput, key: KeyPress): (r: TagInput)
    ensures key == Enter ==> r == TagInputAdd(s)
    ensures key != Enter ==> r == s
  {
    if key.Enter? then TagInputAdd(s) else s
  }

  /** The tags held by the tag input are non-empty, trimmed and pairwise distinct. */
  predicate WellFormedTags(value: seq<string>) {
    && Lists.NoDuplicates(value)
    && forall i :: 0 <= i < |value| ==> value[i] != [] && IsTrimmed(value[i])
  }

  lemma TrimIsTrimmed(s: string)
    ensures IsTrimmed(Trim(s))
  {
  }

  /** Adding, pressing a key and removing all keep the tags well formed. */
  lemma TagInputKeepsWellFormed(s: TagInput, key: KeyPress, item: string)
    requires WellFormedTags(s.value)
    ensures WellFormedTags(TagInputAdd(s).value)
    ensures WellFormedTags(TagInputKeyDown(s, key).value)
    ensures WellFormedTags(TagInputRemove(s, item).value)
  {
    var trimmed := Trim(s.text);
    if trimmed != [] && trimmed !in s.value {
      Lists.AppendFreshKeepsNoDuplicates(s.value, trimmed);
      TrimIsTrimmed(s.text);
      var v := s.value + [trimmed];
      forall i | 0 <= i < |v|
        ensures v[i] != [] && IsTrimmed(v[i])
      {
        if i < |s.value| {
          assert v[i] == s.value[i];
        }
      }
    }
    var r := Lists.RemoveAll(s.value, item);
    Lists.RemoveAllKeepsNoDuplicates(s.value, item);
    forall i | 0 <= i < |r|
      ensures r[i] != [] && IsTrimmed(r[i])
    {
      assert r[i] in r;
      var j :| 0 <= j < |s.value| && s.value[j] == r[i];
    }
  }

  /** Removing the tag just added gives back the previous tags. */
  lemma TagInputAddThenRemove(s: TagInput)
    requires !Blank(s.text) && Trim(s.text) !in s.value
    ensures TagInputRemove(TagInputAdd(s), Trim(s.text)).value == s.value
  {
    Lists.AppendThenRemove(s.value, Trim(s.text));
  }
}
