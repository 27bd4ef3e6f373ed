/**
 * The dialog kinds (src/aw_watcher_ask/models.py): a string enumeration of
 * the fifteen Zenity dialog types, each member carrying the string that is
 * handed to Zenity.
 */
module Models {
  import opened Wrappers

  /** `DialogType`, its members in declaration order. */
  datatype DialogType =
    | Calendar | Entry | Error | Info | FileSelection | List | Notification | Progress
    | Warning | Scale | TextInfo | ColorSelection | Question | Password | Forms

  /** The members in declaration order, as iterating over the enumeration yields them. */
  const Members: seq<DialogType> := [
    Calendar, Entry, Error, Info, FileSelection, List, Notification, Progress,
    Warning, Scale, TextInfo, ColorSelection, Question, Password, Forms
  ]

  /** The member's position in declaration order. */
  function Ordinal(d: DialogType): (k: nat)
    ensures k < |Members| && Members[k] == d
  {
    match d
    case Calendar => 0
    case Entry => 1
    case Error => 2
    case Info => 3
    case FileSelection => 4
    case List => 5
    case Notification => 6
    case Progress => 7
    case Warning => 8
    case Scale => 9
    case TextInfo => 10
    case ColorSelection => 11
    case Question => 12
    case Password => 13
    case Forms => 14
  }

  /** The member's identifier in the Python class body, which as an identifier has no `-`. */
  function Name(d: DialogType): (r: string)
    ensures |r| > 0 && '-' !in r
  {
    match d
    case Calendar => "calendar"
    case Entry => "entry"
    case Error => "error"
    case Info => "info"
    case FileSelection => "file_selection"
    case List => "list"
    case Notification => "notification"
    case Progress => "progress"
    case Warning => "warning"
    case Scale => "scale"
    case TextInfo => "text_info"
    case ColorSelection => "color_selection"
    case Question => "question"
    case Password => "password"
    case Forms => "forms"
  }

  /**
   * `.value`: the string the member stands for, and the one it compares
   * equal to; Zenity's dialog options are written with `-`, never `_`.
   */
  function Value(d: DialogType): (r: string)
    ensures |r| > 0 && '_' !in r
  {
    match d
    case Calendar => "calendar"
    case Entry => "entry"
    case Error => "error"
    case Info => "info"
    case FileSelection => "file-selection"
    case List => "list"
    case Notification => "notification"
    case Progress => "progress"
    case Warning => "warning"
    case Scale => "scale"
    case TextInfo => "text-info"
    case ColorSelection => "color-selection"
    case Question => "question"
    case Password => "password"
    case Forms => "forms"
  }

  /**
   * `DialogType(v)`: lookup by value, which raises for a string that is no
   * member's value (None here). Names are not accepted as values.
   */
  function FromValue(v: string): (r: Option<DialogType>)
    ensures r.Some? ==> Value(r.value) == v
  {
    if v == "calendar" then Some(Calendar)
    else if v == "entry" then Some(Entry)
    else if v == "error" then Some(Error)
    else if v == "info" then Some(Info)
    else if v == "file-selection" then Some(FileSelection)
    else if v == "list" then Some(List)
    else if v == "notification" then Some(Notification)
    else if v == "progress" then Some(Progress)
    else if v == "warning" then Some(Warning)
    else if v == "scale" then Some(Scale)
    else if v == "text-info" then Some(TextInfo)
    else if v == "color-selection" then Some(ColorSelection)
    else if v == "question" then Some(Question)
    else if v == "password" then Some(Password)
    else if v == "forms" then Some(Forms)
    else None
  }

  /**
   * A member compares equal to a string exactly when the string is its
   * value, that is, when looking the string up gives the member back.
   */
  function EqualsString(d: DialogType, s: string): (r: bool)
    ensures r <==> FromValue(s) == Some(d)
  {
    ValueRoundTrip(d);
    FromValueRoundTrip(s);
    Value(d) == s
  }

  /** The values `main` sends to the multi-field prompt instead of the single-field one. */
  const MultiFieldValues: seq<string> := ["forms", "file-selection", "list"]

  /** Exactly `forms`, `list` and `file_selection` are multi-field kinds. */
  function IsMultiField(d: DialogType): (r: bool)
    ensures r <==> d in {Forms, List, FileSelection}
  {
    ValueRoundTrip(d);
    Value(d) in MultiFieldValues
  }

  /** The enumeration has fifteen members, every member is listed once, and their values are pairwise distinct. */
  lemma MembersAreDistinct()
    ensures |Members| == 15
    ensures forall d: DialogType :: d in Members
    ensures forall i, j :: 0 <= i < j < |Members| ==> Members[i] != Members[j]
    ensures forall i, j :: 0 <= i < j < |Members| ==> Value(Members[i]) != Value(Members[j])
  {
    forall d: DialogType ensures d in Members {
      assert Members[Ordinal(d)] == d;
    }
    forall i, j | 0 <= i < j < |Members| ensures Value(Members[i]) != Value(Members[j]) {
      ValueRoundTrip(Members[i]);
      ValueRoundTrip(Members[j]);
    }
  }

  /** Looking a member up by its value gives the member back. */
  lemma ValueRoundTrip(d: DialogType)
    ensures FromValue(Value(d)) == Some(d)
  {
  }

  /** A successful lookup returns a member whose value is the string looked up. */
  lemma FromValueRoundTrip(v: string)
    ensures FromValue(v).Some? ==> Value(FromValue(v).value) == v
    ensures FromValue(v).None? ==> forall d: DialogType :: Value(d) != v
  {
    if FromValue(v).None? {
      forall d: DialogType ensures Value(d) != v {
        ValueRoundTrip(d);
      }
    }
  }

  /** `.value` is injective: distinct members never share a value. */
  lemma ValueInjective(d: DialogType, e: DialogType)
    requires Value(d) == Value(e)
    ensures d == e
  {
    ValueRoundTrip(d);
    ValueRoundTrip(e);
  }

  /** `'_'` replaced by `'-'`. */
  function HyphenChar(c: char): char {
    if c == '_' then '-' else c
  }

  function Hyphenate(s: string): (r: string)
    ensures |r| == |s|
    ensures forall i :: 0 <= i < |s| ==> r[i] == HyphenChar(s[i])
  {
    if s == [] then [] else [HyphenChar(s[0])] + Hyphenate(s[1..])
  }

  lemma {:induction false} HyphenateWithoutUnderscore(s: string)
    requires '_' !in s
    ensures Hyphenate(s) == s
  {
    var r := Hyphenate(s);
    forall i | 0 <= i < |s| ensures r[i] == s[i] {
      assert s[i] in s;
    }
  }

  lemma HyphenateConcat(a: string, b: string)
    ensures Hyphenate(a + b) == Hyphenate(a) + Hyphenate(b)
  {
    var l, ha, hb := Hyphenate(a + b), Hyphenate(a), Hyphenate(b);
    forall i | 0 <= i < |l| ensures l[i] == (ha + hb)[i] {
      if i < |a| {
        assert (a + b)[i] == a[i] && (ha + hb)[i] == ha[i];
      } else {
        assert (a + b)[i] == b[i - |a|] && (ha + hb)[i] == hb[i - |a|];
      }
    }
    assert |l| == |ha + hb|;
  }

  /** Hyphenating `head_tail`, whose parts have no underscore, gives `head-tail`. */
  lemma HyphenateJoined(head: string, tail: string)
    requires '_' !in head && '_' !in tail
    ensures Hyphenate(head + "_" + tail) == head + "-" + tail
  {
    HyphenateConcat(head + "_", tail);
    HyphenateConcat(head, "_");
    HyphenateWithoutUnderscore(head);
    HyphenateWithoutUnderscore(tail);
  }

  lemma FileSelectionValue()
    ensures Value(FileSelection) == Hyphenate(Name(FileSelection))
  {
    assert Name(FileSelection) == "file" + "_" + "selection";
    assert Value(FileSelection) == "file" + "-" + "selection";
    HyphenateJoined("file", "selection");
  }

  lemma TextInfoValue()
    ensures Value(TextInfo) == Hyphenate(Name(TextInfo))
  {
    assert Name(TextInfo) == "text" + "_" + "info";
    assert Value(TextInfo) == "text" + "-" + "info";
    HyphenateJoined("text", "info");
  }

  lemma ColorSelectionValue()
    ensures Value(ColorSelection) == Hyphenate(Name(ColorSelection))
  {
    assert Name(ColorSelection) == "color" + "_" + "selection";
    assert Value(ColorSelection) == "color" + "-" + "selection";
    HyphenateJoined("color", "selection");
  }

  lemma PlainValue(d: DialogType)
    requires d !in {FileSelection, TextInfo, ColorSelection}
    ensures Value(d) == Name(d) == Hyphenate(Name(d))
  {
    assert Value(d) == Name(d);
    HyphenateWithoutUnderscore(Name(d));
  }

  /** Every member's value is its name with `_` replaced by `-`. */
  lemma ValuesFollowNames(d: DialogType)
    ensures Value(d) == Hyphenate(Name(d))
  {
    if d == FileSelection {
      FileSelectionValue();
    } else if d == TextInfo {
      TextInfoValue();
    } else if d == ColorSelection {
      ColorSelectionValue();
    } else {
      PlainValue(d);
    }
  }

  /** Exactly three members have a value that differs from their name. */
  lemma ValueDiffersFromName(d: DialogType)
    ensures Value(d) != Name(d) <==> d in {FileSelection, TextInfo, ColorSelection}
  {
    if d == FileSelection || d == TextInfo {
      assert Name(d)[4] != Value(d)[4];
    } else if d == ColorSelection {
      assert Name(d)[5] != Value(d)[5];
    } else {
      PlainValue(d);
    }
  }

  /** A lookup by the member's name fails for the three hyphenated members. */
  lemma NamesAreNotValues()
    ensures FromValue("file_selection") == None
    ensures FromValue("text_info") == None
    ensures FromValue("color_selection") == None
  {
  }
}
