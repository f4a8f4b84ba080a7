/** The header clean-up of `clean_and_filter` and the check that the six columns the
    dashboard needs are present. */
module Columns {
  import opened Seqs
  import opened Strings

  /** The canonical names, in the order in which they are checked. */
  const Required: seq<string> := ["sitename", "regionname", "cowstatus", "nextfuelingplan", "lat", "lng"]

  predicate IsUpperAscii(c: char) {
    'A' <= c <= 'Z'
  }

  predicate NotUpper(c: char) {
    !IsUpperAscii(c)
  }

  /** `str.strip()`, then `str.lower()`, then `str.replace(" ", "")` of one header. */
  function NormalizeHeader(h: string): (r: string)
    ensures ' ' !in r
    ensures forall i :: 0 <= i < |r| ==> !IsUpperAscii(r[i])
    ensures r == [] || (!IsSpace(r[0]) && !IsSpace(r[|r| - 1]))
  {
    LowerStripped(h);
    SpacesRemoved(ToLower(Strip(h)));
    RemoveSpaces(ToLower(Strip(h)))
  }

  /** A stripped, lower-cased header has no ASCII capital and no whitespace at its
      ends. */
  lemma LowerStripped(h: string)
    ensures var l := ToLower(Strip(h));
      (l == [] || (!IsSpace(l[0]) && !IsSpace(l[|l| - 1])))
      && forall i :: 0 <= i < |l| ==> NotUpper(l[i])
  {
    LowerHasNoUpper(Strip(h));
  }

  /** Deleting the blanks keeps both properties. */
  lemma SpacesRemoved(l: string)
    requires l == [] || (!IsSpace(l[0]) && !IsSpace(l[|l| - 1]))
    requires forall i :: 0 <= i < |l| ==> NotUpper(l[i])
    ensures var r := RemoveSpaces(l);
      (r == [] || (!IsSpace(r[0]) && !IsSpace(r[|r| - 1])))
      && forall i :: 0 <= i < |r| ==> NotUpper(r[i])
  {
    FilterEnds(l, IsNotBlank);
    FilterKeepsProperty(l, IsNotBlank, NotUpper);
  }

  /** The normalised header row. */
  function NormalizeColumns(header: seq<string>): (cols: seq<string>)
    ensures |cols| == |header|
    ensures forall i :: 0 <= i < |header| ==> cols[i] == NormalizeHeader(header[i])
  {
    Map(header, NormalizeHeader)
  }

  /** The required names that are not among `cols`, in the order of `Required`. */
  function MissingColumns(cols: seq<string>): (m: seq<string>)
    ensures forall i :: 0 <= i < |m| ==> m[i] in Required && m[i] !in cols
    ensures forall i :: 0 <= i < |Required| && Required[i] !in cols ==> Required[i] in m
    ensures m == [] <==> forall i :: 0 <= i < |Required| ==> Required[i] in cols
  {
    var m := Filter(Required, Absent(cols));
    MissingMembers(cols);
    NoneMissingIffAllPresent(cols, m);
    m
  }

  lemma NoneMissingIffAllPresent(cols: seq<string>, m: seq<string>)
    requires forall i :: 0 <= i < |m| ==> m[i] in Required && m[i] !in cols
    requires forall i :: 0 <= i < |Required| && Required[i] !in cols ==> Required[i] in m
    ensures m == [] <==> forall i :: 0 <= i < |Required| ==> Required[i] in cols
  {
    if m != [] {
      assert m[0] in Required && m[0] !in cols;
      var i :| 0 <= i < |Required| && Required[i] == m[0];
      assert Required[i] !in cols;
    }
  }

  function Absent(cols: seq<string>): string -> bool {
    c => c !in cols
  }

  lemma MissingMembers(cols: seq<string>)
    ensures forall i :: 0 <= i < |Required| ==>
      (Required[i] in Filter(Required, Absent(cols)) <==> Required[i] !in cols)
    ensures forall x :: x in Filter(Required, Absent(cols)) ==> x in Required && x !in cols
  {
    forall x
      ensures x in Filter(Required, Absent(cols)) <==> x in Required && x !in cols
    {
      FilterMember(Required, Absent(cols), x);
    }
  }

  /** Lower-casing leaves no ASCII capital and keeps every non-space character non-space. */
  lemma LowerHasNoUpper(t: string)
    ensures forall i :: 0 <= i < |t| ==> !IsUpperAscii(ToLower(t)[i])
    ensures forall i :: 0 <= i < |t| ==> (IsSpace(ToLower(t)[i]) <==> IsSpace(t[i]))
  {
  }

  /** A filter keeps a first and last element that pass it, so the ends of its result
      are those elements. */
  lemma FilterEnds(s: string, p: char -> bool)
    requires s == [] || (p(s[0]) && p(s[|s| - 1]))
    ensures var r := Filter(s, p); s == [] || (r != [] && r[0] == s[0] && r[|r| - 1] == s[|s| - 1])
  {
    if |s| == 1 {
      assert Filter(s, p) == [s[0]] + Filter(s[1..], p);
    } else if |s| > 1 {
      var mid := s[1..|s| - 1];
      assert s == [s[0]] + mid + [s[|s| - 1]];
      FilterAppend([s[0]] + mid, [s[|s| - 1]], p);
      FilterAppend([s[0]], mid, p);
      assert Filter([s[0]], p) == [s[0]] + Filter([], p);
      assert Filter([s[|s| - 1]], p) == [s[|s| - 1]] + Filter([], p);
    }
  }

  /** Normalising a header twice gives what normalising it once gives. */
  lemma NormalizeIdempotent(h: string)
    ensures NormalizeHeader(NormalizeHeader(h)) == NormalizeHeader(h)
  {
    var r := NormalizeHeader(h);
    StripUnchanged(r);
    assert ToLower(r) == r;
    FilterKeepsAll(r, IsNotBlank);
  }

  /** `" Next Fueling Plan "` names the date column. */
  lemma ExampleHeader(h: string)
    requires h == " Next Fueling Plan "
    ensures NormalizeHeader(h) == "nextfuelingplan"
  {
    ExampleStrip(h);
    ExampleLower(Strip(h));
    ExampleRemoveSpaces(ToLower(Strip(h)));
  }

  lemma ExampleStrip(h: string)
    requires h == " Next Fueling Plan "
    ensures Strip(h) == "Next Fueling Plan"
  {
    var t := "Next Fueling Plan";
    assert h == " " + t + " ";
    StripPadded(t);
  }

  lemma ExampleLower(t: string)
    requires t == "Next Fueling Plan"
    ensures ToLower(t) == "next" + " " + ("fueling" + " " + "plan")
  {
    assert forall k :: 0 <= k < 17 ==> ToLower(t)[k] == LowerChar(t[k]);
  }

  lemma ExampleRemoveSpaces(l: string)
    requires l == "next" + " " + ("fueling" + " " + "plan")
    ensures RemoveSpaces(l) == "nextfuelingplan"
  {
    var tail := "fueling" + " " + "plan";
    assert RemoveSpaces(tail) == "fuelingplan" by {
      WordThenBlank("fueling", "plan");
      SpaceFreeKept("plan");
    }
    WordThenBlank("next", tail);
  }

  /** One blank on each side of a text is stripped. */
  lemma StripPadded(t: string)
    requires t != [] && !IsSpace(t[0]) && !IsSpace(t[|t| - 1])
    ensures Strip(" " + t + " ") == t
  {
    var s := " " + t + " ";
    assert s[1..] == t + " ";
    assert StripLeft(s) == t + " ";
    assert (t + " ")[..|t|] == t;
  }

  /** `replace(" ", "")` keeps a space-free word and drops the blank after it. */
  lemma WordThenBlank(a: string, rest: string)
    requires ' ' !in a
    ensures RemoveSpaces(a + " " + rest) == a + RemoveSpaces(rest)
  {
    FilterAppend(a + " ", rest, IsNotBlank);
    TrailingBlankDropped(a);
  }

  lemma TrailingBlankDropped(a: string)
    requires ' ' !in a
    ensures Filter(a + " ", IsNotBlank) == a
  {
    FilterAppend(a, " ", IsNotBlank);
    SpaceFreeKept(a);
    assert Filter(" ", IsNotBlank) == [] + Filter([], IsNotBlank);
  }

  lemma SpaceFreeKept(a: string)
    requires ' ' !in a
    ensures Filter(a, IsNotBlank) == a
  {
    assert forall i :: 0 <= i < |a| ==> IsNotBlank(a[i]);
    FilterKeepsAll(a, IsNotBlank);
  }

  /** Missing names are reported in the order of `Required`, each once. */
  lemma MissingInOrder(cols: seq<string>)
    ensures IsSubsequence(MissingColumns(cols), Required)
  {
    FilterIsSubsequence(Required, Absent(cols));
  }

  /** A header row that already holds all six names fails the check on nothing. */
  lemma NoneMissing(header: seq<string>)
    requires forall i :: 0 <= i < |Required| ==> Required[i] in header
    ensures MissingColumns(NormalizeColumns(header)) == []
  {
    var cols := NormalizeColumns(header);
    forall i | 0 <= i < |Required|
      ensures Required[i] in cols
    {
      var j :| 0 <= j < |header| && header[j] == Required[i];
      RequiredNormal(i);
      assert cols[j] == Required[i];
    }
  }

  /** The required names are already in normal form. */
  lemma RequiredNormal(i: int)
    requires 0 <= i < |Required|
    ensures NormalizeHeader(Required[i]) == Required[i]
  {
    if i == 0 { LowerWordNormal(Required[i]); }
    else if i == 1 { LowerWordNormal(Required[i]); }
    else if i == 2 { LowerWordNormal(Required[i]); }
    else if i == 3 { LowerWordNormal(Required[i]); }
    else if i == 4 { LowerWordNormal(Required[i]); }
    else { LowerWordNormal(Required[i]); }
  }

  /** A word of lower-case ASCII letters is its own normal form. */
  lemma LowerWordNormal(c: string)
    requires forall k :: 0 <= k < |c| ==> 'a' <= c[k] <= 'z'
    ensures NormalizeHeader(c) == c
  {
    StripUnchanged(c);
    assert ToLower(c) == c;
    FilterKeepsAll(c, IsNotBlank);
  }
}
