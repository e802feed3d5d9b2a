/**
 * components/pages/TeacherProfilePage.js: the teacher's saved profile, the
 * copy being edited, save and cancel, the comma-separated list fields, the
 * experience field, the picture shown and the avatar initials.
 */
module Profile {
  import opened Wrappers
  import opened Text
  import opened Numbers
  import opened Sequences

  datatype TeacherInfo = TeacherInfo(
    id: string, name: string, email: string, profilePicture: string,
    specialization: seq<string>, experienceYears: int,
    researchInterests: seq<string>, subjects: seq<string>,
    education: string, department: string, joinDate: string,
    phoneNumber: string, officeLocation: string, bio: string)

  /** The profile the page starts with. */
  const InitialInfo := TeacherInfo(
    "T001", "Dr. Sarah Mitchell", "teacher@demo.com", "",
    ["Machine Learning", "Data Science", "Artificial Intelligence"], 8,
    ["Deep Learning Applications", "Computer Vision", "Natural Language Processing", "Educational Technology"],
    ["Mathematics", "Physics", "Computer Science", "Statistics"],
    "Ph.D. in Computer Science, MIT", "Computer Science & Engineering", "2019-08-15",
    "+1 (555) 123-4567", "Room 302, Engineering Building",
    "Passionate educator with expertise in machine learning and data science. Committed to innovative teaching methods and student success through hands-on learning experiences.")

  /** The list fields edited as comma-separated text. */
  datatype ArrayField = Specialization | Subjects | ResearchInterests

  /** The text fields edited directly. */
  datatype TextField = Name | Education | Bio | PhoneNumber | OfficeLocation

  // --------------------------------------------------------------- lists

  /** Every piece trimmed. */
  function TrimAll(parts: seq<string>): (r: seq<string>)
    ensures |r| == |parts|
    ensures forall i :: 0 <= i < |parts| ==> r[i] == Trim(parts[i])
    decreases |parts|
  {
    if |parts| == 0 then []
    else [Trim(parts[0])] + TrimAll(parts[1..])
  }

  /** The non-empty items, in order and multiplicity (`filter(item => item)`). */
  function DropEmpty(items: seq<string>): (r: seq<string>)
    ensures IsSubsequence(r, items)
    ensures forall x :: x in r <==> x in items && x != ""
    ensures forall x :: (multiset(r)[x] == if x != "" then multiset(items)[x] else 0)
    decreases |items|
  {
    if |items| == 0 then []
    else
      assert items == [items[0]] + items[1..];
      if items[0] == "" then DropEmpty(items[1..])
      else [items[0]] + DropEmpty(items[1..])
  }

  /** A list of items as the list fields hold them: each non-empty and trimmed. */
  predicate CleanItems(items: seq<string>) {
    forall x :: x in items ==> x != "" && IsTrimmed(x)
  }

  /** The list typed into a list field: split at commas, each piece trimmed, empty pieces dropped. */
  function ParseList(value: string): (items: seq<string>)
    ensures CleanItems(items)
  {
    var r := DropEmpty(TrimAll(Split(value, ',')));
    assert forall x :: x in r ==> x in TrimAll(Split(value, ','));
    r
  }

  /**
   * The text a list field shows: the items joined with ", ". Parsing it gives
   * the list back when every item is trimmed, non-empty and free of commas.
   */
  function ShowList(items: seq<string>): (text: string)
    ensures CleanItems(items) && (forall x :: x in items ==> ',' !in x) ==> ParseList(text) == items
  {
    ParseJoined(items);
    Join(items, ", ")
  }

  /** Non-empty items are all kept. */
  lemma {:induction false} DropEmptyKeepsAll(items: seq<string>)
    requires forall x :: x in items ==> x != ""
    ensures DropEmpty(items) == items
    decreases |items|
  {
    if |items| > 0 {
      assert items[0] in items;
      assert forall x :: x in items[1..] ==> x in items;
      DropEmptyKeepsAll(items[1..]);
    }
  }

  /** The pieces of the ", "-joined text: the first item, then every other item after its space. */
  lemma SplitJoined(items: seq<string>)
    requires |items| > 0
    requires forall x :: x in items ==> ',' !in x
    ensures Split(Join(items, ", "), ',') == [items[0]] + Prefixed(" ", items[1..])
  {
    SplitJoinPadded("", items, ',', " ");
    assert [','] + " " == ", ";
    assert "" + Join(items, ", ") == Join(items, ", ");
    assert "" + items[0] == items[0];
  }

  /** Trimming items that each got one space in front gives the items back. */
  lemma TrimPadded(xs: seq<string>)
    requires forall x :: x in xs ==> IsTrimmed(x)
    ensures TrimAll(Prefixed(" ", xs)) == xs
  {
    var padded := Prefixed(" ", xs);
    forall i | 0 <= i < |xs| ensures TrimAll(padded)[i] == xs[i] {
      assert xs[i] in xs;
      assert padded[i] == [' '] + xs[i];
      TrimAfterSpace(xs[i]);
    }
  }

  /** Trimming a list trims its head and its tail. */
  lemma TrimAllCons(head: string, tail: seq<string>)
    ensures TrimAll([head] + tail) == [Trim(head)] + TrimAll(tail)
  {
    assert ([head] + tail)[1..] == tail;
  }

  /** Trimming those pieces removes the spaces again. */
  lemma TrimPieces(items: seq<string>)
    requires |items| > 0
    requires CleanItems(items)
    ensures TrimAll([items[0]] + Prefixed(" ", items[1..])) == items
  {
    var tail := Prefixed(" ", items[1..]);
    assert TrimAll(tail) == items[1..] by {
      assert forall x :: x in items[1..] ==> x in items;
      TrimPadded(items[1..]);
    }
    assert Trim(items[0]) == items[0] by {
      assert items[0] in items;
      TrimTrimmed(items[0]);
    }
    assert TrimAll([items[0]] + tail) == [Trim(items[0])] + TrimAll(tail) by {
      TrimAllCons(items[0], tail);
    }
    assert items == [items[0]] + items[1..];
  }

  /** Parsing the ", "-joined text gives back the list, when every item is clean and comma-free. */
  lemma ParseJoined(items: seq<string>)
    ensures CleanItems(items) && (forall x :: x in items ==> ',' !in x) ==> ParseList(Join(items, ", ")) == items
  {
    if CleanItems(items) && (forall x :: x in items ==> ',' !in x) {
      if |items| == 0 {
        assert Join(items, ", ") == "";
        assert TrimAll([""]) == [""];
      } else {
        SplitJoined(items);
        TrimPieces(items);
        DropEmptyKeepsAll(items);
      }
    }
  }

  /** Text made of commas and white space only: every piece of its split is white space. */
  lemma {:induction false} BlankPieces(value: string)
    requires forall i :: 0 <= i < |value| ==> value[i] == ',' || IsSpace(value[i])
    ensures forall j :: 0 <= j < |Split(value, ',')| ==>
      forall k :: 0 <= k < |Split(value, ',')[j]| ==> IsSpace(Split(value, ',')[j][k])
    decreases |value|
  {
    if |value| > 0 {
      BlankPieces(value[1..]);
      if value[0] != ',' {
        var rest := Split(value[1..], ',');
        var first := [value[0]] + rest[0];
        assert forall k :: 0 <= k < |first| ==> IsSpace(first[k]);
        assert Split(value, ',') == [first] + rest[1..];
      }
    }
  }

  /** Pieces that trim to nothing disappear, so text of commas and white space makes no items. */
  lemma ParseListBlanks(value: string)
    requires forall i :: 0 <= i < |value| ==> value[i] == ',' || IsSpace(value[i])
    ensures ParseList(value) == []
  {
    var parts := Split(value, ',');
    BlankPieces(value);
    var trimmed := TrimAll(parts);
    forall i | 0 <= i < |trimmed| ensures trimmed[i] == "" {
      TrimBlank(parts[i]);
    }
    var r := DropEmpty(trimmed);
    if |r| > 0 {
      assert r[0] in r;
    }
  }

  // ------------------------------------------------------------- fields

  /** The edit copy with one list field replaced and the rest kept. */
  function WithArrayField(info: TeacherInfo, field: ArrayField, items: seq<string>): (r: TeacherInfo)
    ensures field == Specialization ==> r == info.(specialization := items)
    ensures field == Subjects ==> r == info.(subjects := items)
    ensures field == ResearchInterests ==> r == info.(researchInterests := items)
  {
    match field
    case Specialization => info.(specialization := items)
    case Subjects => info.(subjects := items)
    case ResearchInterests => info.(researchInterests := items)
  }

  /** The items stored in one list field. */
  function ArrayFieldValue(info: TeacherInfo, field: ArrayField): seq<string> {
    match field
    case Specialization => info.specialization
    case Subjects => info.subjects
    case ResearchInterests => info.researchInterests
  }

  /** Writing a list field changes that field and no other. */
  lemma ArrayFieldOnly(info: TeacherInfo, field: ArrayField, items: seq<string>)
    ensures ArrayFieldValue(WithArrayField(info, field, items), field) == items
    ensures forall other :: other != field ==>
      ArrayFieldValue(WithArrayField(info, field, items), other) == ArrayFieldValue(info, other)
    ensures WithArrayField(info, field, items).(specialization := [], subjects := [], researchInterests := [])
         == info.(specialization := [], subjects := [], researchInterests := [])
  {
  }

  /** The edit copy with one text field replaced and the rest kept. */
  function WithTextField(info: TeacherInfo, field: TextField, value: string): (r: TeacherInfo)
    ensures field == Name ==> r == info.(name := value)
    ensures field == Education ==> r == info.(education := value)
    ensures field == Bio ==> r == info.(bio := value)
    ensures field == PhoneNumber ==> r == info.(phoneNumber := value)
    ensures field == OfficeLocation ==> r == info.(officeLocation := value)
  {
    match field
    case Name => info.(name := value)
    case Education => info.(education := value)
    case Bio => info.(bio := value)
    case PhoneNumber => info.(phoneNumber := value)
    case OfficeLocation => info.(officeLocation := value)
  }

  /** The experience typed in: its `parseInt` value, or 0 when that is NaN. */
  function ExperienceFromText(text: string): (years: int)
    ensures ParseInt(text).None? ==> years == 0
    ensures ParseInt(text).Some? ==> years == ParseInt(text).value
  {
    match ParseInt(text)
    case None => 0
    case Some(v) => v
  }

  /** A number typed in is kept. */
  lemma ExperienceOfNumber(n: nat)
    ensures ExperienceFromText(NatToString(n)) == n
  {
    ParseIntNatToString(n);
  }

  /** Text without a digit is stored as 0. */
  lemma ExperienceWithoutDigits(text: string)
    requires NoDigits(text)
    ensures ExperienceFromText(text) == 0
  {
  }

  // ---------------------------------------------------------------- view

  /** `currentInfo`: the edit copy while editing, the saved profile otherwise. */
  function CurrentInfo(isEditing: bool, editedInfo: TeacherInfo, teacherInfo: TeacherInfo): (info: TeacherInfo)
    ensures isEditing ==> info == editedInfo
    ensures !isEditing ==> info == teacherInfo
  {
    if isEditing then editedInfo else teacherInfo
  }

  /** `displayImage`: the preview when one is set and non-empty, else the profile's own picture. */
  function DisplayImage(preview: Option<string>, info: TeacherInfo): (image: string)
    ensures preview.Some? && preview.value != "" ==> image == preview.value
    ensures preview.None? || preview.value == "" ==> image == info.profilePicture
  {
    if preview.Some? && preview.value != "" then preview.value else info.profilePicture
  }

  /** A character in none of the pieces is none of their first characters. */
  lemma {:induction false} FirstCharsAvoid(parts: seq<string>, c: char)
    requires forall p :: p in parts ==> c !in p
    ensures c !in FirstChars(parts)
    decreases |parts|
  {
    if |parts| > 0 {
      assert parts[0] in parts;
      assert forall p :: p in parts[1..] ==> p in parts;
      FirstCharsAvoid(parts[1..], c);
    }
  }

  /** The first character of each non-empty piece (an empty piece's `n[0]` is undefined and joins as ""). */
  function FirstChars(parts: seq<string>): (r: string)
    ensures |r| <= |parts|
    decreases |parts|
  {
    if |parts| == 0 then ""
    else (if parts[0] == "" then "" else [parts[0][0]]) + FirstChars(parts[1..])
  }

  /**
   * The avatar fallback: the first character of each space-separated piece of
   * the name. No initial is a space, and a name that starts with a non-space
   * character starts its initials with it.
   */
  function Initials(name: string): (r: string)
    ensures ' ' !in r
    ensures |name| > 0 && name[0] != ' ' ==> |r| > 0 && r[0] == name[0]
  {
    var parts := Split(name, ' ');
    FirstCharsAvoid(parts, ' ');
    SplitFirst(name, ' ');
    FirstChars(parts)
  }

  /** Of non-empty pieces, every first character is taken, in order. */
  lemma {:induction false} FirstCharsAll(parts: seq<string>)
    requires forall i :: 0 <= i < |parts| ==> parts[i] != ""
    ensures |FirstChars(parts)| == |parts|
    ensures forall i :: 0 <= i < |parts| ==> FirstChars(parts)[i] == parts[i][0]
    decreases |parts|
  {
    if |parts| > 0 {
      FirstCharsAll(parts[1..]);
    }
  }

  /** A name written as words separated by single spaces has one initial per word, in order. */
  lemma InitialsOfWords(words: seq<string>)
    requires |words| > 0
    requires forall i :: 0 <= i < |words| ==> words[i] != "" && ' ' !in words[i]
    ensures |Initials(Join(words, " "))| == |words|
    ensures forall i :: 0 <= i < |words| ==> Initials(Join(words, " "))[i] == words[i][0]
  {
    assert [' '] == " ";
    assert forall w :: w in words ==> ' ' !in w;
    JoinThenSplit(words, ' ');
    FirstCharsAll(words);
  }

  /** The initial profile's name gives "DSM". */
  lemma InitialsExample(name: string)
    requires name == "Dr. Sarah Mitchell"
    ensures Initials(name) == "DSM"
  {
    InitialsOfWords(["Dr.", "Sarah", "Mitchell"]);
    assert Join(["Dr.", "Sarah", "Mitchell"], " ") == name;
  }

  /** A doubled space makes an empty piece, which adds no initial. */
  lemma InitialsDoubleSpace(first: string, last: string)
    requires first != "" && ' ' !in first
    requires last != "" && ' ' !in last
    ensures Initials(first + "  " + last) == [first[0], last[0]]
  {
    var name := first + "  " + last;
    assert name == first + [' '] + ("" + [' '] + last);
    SplitAtFirstSep(first, ' ', "" + [' '] + last);
    SplitAtFirstSep("", ' ', last);
    SplitWithoutSep(last, ' ');
    var parts := [first, "", last];
    assert Split(name, ' ') == parts;
    assert parts[1..][1..] == [last];
    assert FirstChars([last]) == [last[0]];
    assert FirstChars(parts[1..]) == [last[0]];
  }

  // -------------------------------------------------------------- editor

  /** The page's state: the saved profile, the edit copy, the edit flag and the picture preview. */
  class ProfileEditor {
    var isEditing: bool
    var preview: Option<string>
    var teacherInfo: TeacherInfo
    var editedInfo: TeacherInfo

    /** Outside editing, the edit copy equals the saved profile and no preview is set. */
    predicate Settled()
      reads this
    {
      !isEditing ==> editedInfo == teacherInfo && preview.None?
    }

    constructor ()
      ensures !isEditing && preview.None?
      ensures teacherInfo == InitialInfo && editedInfo == InitialInfo
      ensures Settled()
    {
      isEditing := false;
      preview := None;
      teacherInfo := InitialInfo;
      editedInfo := InitialInfo;
    }

    /** The profile being shown: the edit copy while editing, the saved profile otherwise. */
    function Current(): (info: TeacherInfo)
      reads this
      ensures isEditing ==> info == editedInfo
      ensures !isEditing ==> info == teacherInfo
      ensures Settled() ==> info == editedInfo
    {
      CurrentInfo(isEditing, editedInfo, teacherInfo)
    }

    /** "Edit Profile": editing starts from the copy as it stands. */
    method StartEditing()
      modifies this`isEditing
      ensures isEditing
    {
      isEditing := true;
    }

    /** `handleSave`: the edit copy becomes the saved profile. */
    method Save()
      modifies this`teacherInfo, this`isEditing, this`preview
      ensures teacherInfo == editedInfo && editedInfo == old(editedInfo)
      ensures !isEditing && preview.None?
      ensures Settled()
      ensures Current() == old(editedInfo)
    {
      teacherInfo := editedInfo;
      isEditing := false;
      preview := None;
    }

    /** `handleCancel`: the edit copy is thrown away and the saved profile kept. */
    method Cancel()
      modifies this`editedInfo, this`isEditing, this`preview
      ensures editedInfo == teacherInfo && teacherInfo == old(teacherInfo)
      ensures !isEditing && preview.None?
      ensures Settled()
      ensures Current() == old(teacherInfo)
    {
      editedInfo := teacherInfo;
      isEditing := false;
      preview := None;
    }

    /**
     * `handleArrayFieldChange`: the typed text, parsed, replaces one list
     * field of the edit copy. The list inputs are shown only while editing.
     */
    method ArrayFieldChange(field: ArrayField, value: string)
      requires isEditing
      modifies this`editedInfo
      ensures editedInfo == WithArrayField(old(editedInfo), field, ParseList(value))
      ensures CleanItems(ArrayFieldValue(editedInfo, field))
    {
      editedInfo := WithArrayField(editedInfo, field, ParseList(value));
    }

    /** A text input of the edit form; these are shown only while editing. */
    method TextFieldChange(field: TextField, value: string)
      requires isEditing
      modifies this`editedInfo
      ensures editedInfo == WithTextField(old(editedInfo), field, value)
    {
      editedInfo := WithTextField(editedInfo, field, value);
    }

    /** The experience input: `parseInt(value) || 0`. */
    method ExperienceChange(value: string)
      requires isEditing
      modifies this`editedInfo
      ensures editedInfo == old(editedInfo).(experienceYears := ExperienceFromText(value))
    {
      editedInfo := editedInfo.(experienceYears := ExperienceFromText(value));
    }

    /** The picture shown in the avatar: a non-empty preview, else the shown profile's picture. */
    function Image(): (image: string)
      reads this
      ensures preview.Some? && preview.value != "" ==> image == preview.value
      ensures (preview.None? || preview.value == "") && isEditing ==> image == editedInfo.profilePicture
      ensures (preview.None? || preview.value == "") && !isEditing ==> image == teacherInfo.profilePicture
      ensures !isEditing && Settled() ==> image == teacherInfo.profilePicture
    {
      DisplayImage(preview, Current())
    }
  }
}
