/** Prometheus label rendering (text exposition format 0.0.4) and the histogram behind it. */
module Labels {
  import opened Options
  import opened Sorting

  // ----- escaping -----

  /** Replaces every occurrence of one character by a text. */
  function Replace(s: string, c: char, to: string): string {
    if s == "" then "" else (if s[0] == c then to else [s[0]]) + Replace(s[1..], c, to)
  }

  function EscapeLabel(value: string): string {
    Replace(Replace(Replace(value, '\\', "\\\\"), '\n', "\\n"), '"', "\\\"")
  }

  function EscapeChar(c: char): string {
    if c == '\\' then "\\\\" else if c == '\n' then "\\n" else if c == '"' then "\\\"" else [c]
  }

  function EscapeEach(s: string): string {
    if s == "" then "" else EscapeChar(s[0]) + EscapeEach(s[1..])
  }

  lemma {:induction false} ReplaceConcat(a: string, b: string, c: char, to: string)
    ensures Replace(a + b, c, to) == Replace(a, c, to) + Replace(b, c, to)
  {
    if a == "" {
      assert a + b == b;
    } else {
      ReplaceConcat(a[1..], b, c, to);
      assert (a + b)[1..] == a[1..] + b;
      ConcatAssociative(if a[0] == c then to else [a[0]], Replace(a[1..], c, to), Replace(b, c, to));
    }
  }

  lemma {:induction false} ReplaceOne(x: char, c: char, to: string)
    ensures Replace([x], c, to) == if x == c then to else [x]
  {
    assert [x][1..] == "";
  }

  lemma {:induction false} ReplaceTwo(x: char, y: char, c: char, to: string)
    ensures Replace([x, y], c, to) == (if x == c then to else [x]) + (if y == c then to else [y])
  {
    assert [x, y][1..] == [y];
    ReplaceOne(y, c, to);
  }

  lemma EscapeLabelChar(x: char)
    ensures EscapeLabel([x]) == EscapeChar(x)
  {
    ReplaceOne(x, '\\', "\\\\");
    ReplaceOne(x, '\n', "\\n");
    ReplaceOne(x, '"', "\\\"");
    ReplaceTwo('\\', '\\', '\n', "\\n");
    ReplaceTwo('\\', '\\', '"', "\\\"");
    ReplaceTwo('\\', 'n', '"', "\\\"");
  }

  lemma EscapeLabelConcat(a: string, b: string)
    ensures EscapeLabel(a + b) == EscapeLabel(a) + EscapeLabel(b)
  {
    ReplaceConcat(a, b, '\\', "\\\\");
    var a1, b1 := Replace(a, '\\', "\\\\"), Replace(b, '\\', "\\\\");
    ReplaceConcat(a1, b1, '\n', "\\n");
    ReplaceConcat(Replace(a1, '\n', "\\n"), Replace(b1, '\n', "\\n"), '"', "\\\"");
  }

  /** The three replacements, one after the other, act as one substitution per character. */
  lemma {:induction false} EscapingIsPerCharacter(s: string)
    ensures EscapeLabel(s) == EscapeEach(s)
  {
    if s != "" {
      EscapeLabelConcat([s[0]], s[1..]);
      EscapeLabelChar(s[0]);
      EscapingIsPerCharacter(s[1..]);
      assert s == [s[0]] + s[1..];
    }
  }

  // ----- label sets -----

  datatype Label = Label(name: string, value: string)

  /** Label order: by name, then value, as tuples compare. */
  predicate LabelLe(a: Label, b: Label) {
    if a.name == b.name then StrLe(a.value, b.value) else StrLe(a.name, b.name)
  }

  /** Sets one name in an insertion-ordered dict: a name keeps its place, a new one goes last. */
  function Assign(d: seq<Label>, l: Label): seq<Label> {
    if d == [] then [l]
    else if d[0].name == l.name then [l] + d[1..]
    else [d[0]] + Assign(d[1..], l)
  }

  function Update(d: seq<Label>, extra: seq<Label>): seq<Label>
    decreases |extra|
  {
    if extra == [] then d else Update(Assign(d, extra[0]), extra[1..])
  }

  function RenderOne(l: Label): string {
    l.name + "=\"" + EscapeLabel(l.value) + "\""
  }

  /** The labels printed one after the other, with commas between them. */
  function Join(ls: seq<Label>): string {
    if ls == [] then "" else if |ls| == 1 then RenderOne(ls[0]) else RenderOne(ls[0]) + "," + Join(ls[1..])
  }

  function Render(ls: seq<Label>): string {
    if ls == [] then "" else "{" + Join(ls) + "}"
  }

  function FormatLabels(labels: seq<Label>, extra: seq<Label>): string {
    Render(Sort(LabelLe, Update(Update([], labels), extra)))
  }

  /** The mapping an insertion-ordered dict stands for. */
  function ToMap(d: seq<Label>): map<string, string> {
    if d == [] then map[] else ToMap(d[1..])[d[0].name := d[0].value]
  }

  ghost predicate DistinctNames(d: seq<Label>) {
    forall i, j :: 0 <= i < j < |d| ==> d[i].name != d[j].name
  }

  // ----- reading labels back -----

  /** Does the text hold an equals sign with a quotation mark behind it, as it ends a name? */
  predicate HasMark(s: string) {
    |s| >= 2 && ((s[0] == '=' && s[1] == '"') || HasMark(s[1..]))
  }

  /** Splits at the first such mark; None when there is none. */
  function ReadName(s: string): (r: Option<(string, string)>)
    ensures r.Some? ==> |r.value.1| < |s|
  {
    if |s| < 2 then None
    else if s[0] == '=' && s[1] == '"' then Some(("", s[2..]))
    else
      match ReadName(s[1..])
      case None => None
      case Some((name, rest)) => Some(([s[0]] + name, rest))
  }

  /** Reads an escaped value up to its closing quote. */
  function ReadValue(s: string): (r: Option<(string, string)>)
    ensures r.Some? ==> |r.value.1| < |s|
  {
    if s == "" then None
    else if s[0] == '"' then Some(("", s[1..]))
    else if s[0] != '\\' then
      match ReadValue(s[1..])
      case None => None
      case Some((v, rest)) => Some(([s[0]] + v, rest))
    else if |s| == 1 then None
    else
      match ReadValue(s[2..])
      case None => None
      case Some((v, rest)) => Some(([if s[1] == 'n' then '\n' else s[1]] + v, rest))
  }

  function ReadLabels(s: string): Option<seq<Label>>
    decreases |s|
  {
    match ReadName(s)
    case None => None
    case Some((name, quoted)) =>
      match ReadValue(quoted)
      case None => None
      case Some((value, rest)) =>
        if rest == "}" then Some([Label(name, value)])
        else if rest == "" || rest[0] != ',' then None
        else
          match ReadLabels(rest[1..])
          case None => None
          case Some(ls) => Some([Label(name, value)] + ls)
  }

  function Parse(s: string): Option<map<string, string>> {
    if s == "" then Some(map[])
    else if s[0] != '{' then None
    else
      match ReadLabels(s[1..])
      case None => None
      case Some(ls) => Some(ToMap(ls))
  }

  lemma {:induction false} ReadsName(name: string, rest: string)
    requires !HasMark(name)
    ensures ReadName(name + ("=\"" + rest)) == Some((name, rest))
  {
    var s := name + ("=\"" + rest);
    if name == "" {
      assert s == "=\"" + rest && s[2..] == rest;
    } else {
      ReadsName(name[1..], rest);
      assert s[1..] == name[1..] + ("=\"" + rest);
      assert name == [name[0]] + name[1..];
    }
  }

  /** A name that was read back holds no mark. */
  lemma {:induction false} ReadNamesAreUnmarked(s: string)
    ensures ReadName(s).Some? ==> !HasMark(ReadName(s).value.0)
    ensures ReadName(s).Some? && ReadName(s).value.0 != "" ==> ReadName(s).value.0[0] == s[0]
  {
    if |s| >= 2 && !(s[0] == '=' && s[1] == '"') {
      ReadNamesAreUnmarked(s[1..]);
      if ReadName(s[1..]).Some? {
        var name := ReadName(s[1..]).value.0;
        assert ([s[0]] + name)[1..] == name;
      }
    }
  }

  lemma {:induction false} ReadLabelsAreUnmarked(s: string)
    ensures ReadLabels(s).Some? ==> forall l :: l in ReadLabels(s).value ==> !HasMark(l.name)
    decreases |s|
  {
    ReadNamesAreUnmarked(s);
    if ReadName(s).Some? {
      var value := ReadValue(ReadName(s).value.1);
      if value.Some? && value.value.1 != "" && value.value.1[0] == ',' {
        ReadLabelsAreUnmarked(value.value.1[1..]);
      }
    }
  }

  lemma {:induction false} KeysAreNames(d: seq<Label>)
    ensures forall name :: name in ToMap(d) ==> exists l :: l in d && l.name == name
  {
    if d != [] {
      KeysAreNames(d[1..]);
      assert d[0] in d;
      forall name | name in ToMap(d[1..]) ensures exists l :: l in d && l.name == name {
        var l :| l in d[1..] && l.name == name;
        assert l in d;
      }
    }
  }

  /** Nor does any name of a parsed text. */
  lemma ParsedNamesAreUnmarked(s: string)
    ensures Parse(s).Some? ==> forall name :: name in Parse(s).value ==> !HasMark(name)
  {
    if s != "" && s[0] == '{' && ReadLabels(s[1..]).Some? {
      ReadLabelsAreUnmarked(s[1..]);
      KeysAreNames(ReadLabels(s[1..]).value);
    }
  }

  lemma {:induction false} ReadsValue(value: string, rest: string)
    ensures ReadValue(EscapeEach(value) + ("\"" + rest)) == Some((value, rest))
  {
    var s := EscapeEach(value) + ("\"" + rest);
    if value == "" {
      assert s == "\"" + rest && s[1..] == rest;
    } else {
      ReadsValue(value[1..], rest);
      var c, tail := value[0], EscapeEach(value[1..]) + ("\"" + rest);
      ConcatAssociative(EscapeChar(c), EscapeEach(value[1..]), "\"" + rest);
      ShiftHead([], value);
      if |EscapeChar(c)| == 1 {
        assert s[1..] == tail;
      } else {
        assert s[2..] == tail;
      }
    }
  }

  /** One printed label, followed by anything, reads back as its name and its value. */
  lemma {:induction false} ReadsOne(l: Label, rest: string)
    requires !HasMark(l.name)
    ensures var quoted := EscapeEach(l.value) + ("\"" + rest);
            ReadName(RenderOne(l) + rest) == Some((l.name, quoted)) && ReadValue(quoted) == Some((l.value, rest))
  {
    var quoted := EscapeEach(l.value) + ("\"" + rest);
    EscapingIsPerCharacter(l.value);
    assert RenderOne(l) + rest == l.name + ("=\"" + quoted);
    ReadsName(l.name, quoted);
    ReadsValue(l.value, rest);
  }

  lemma {:induction false} JoinStep(ls: seq<Label>)
    requires |ls| > 1
    ensures Join(ls) + "}" == RenderOne(ls[0]) + ("," + (Join(ls[1..]) + "}"))
  {
    var one, more := RenderOne(ls[0]), Join(ls[1..]);
    ConcatAssociative(one + ",", more, "}");
    ConcatAssociative(one, ",", more + "}");
  }

  /** ReadLabels on text whose first label reads as `l`, leaving `rest`. */
  lemma {:induction false} ReadStep(s: string, quoted: string, l: Label, rest: string)
    requires ReadName(s) == Some((l.name, quoted)) && ReadValue(quoted) == Some((l.value, rest))
    ensures rest == "}" ==> ReadLabels(s) == Some([l])
    ensures rest != "" && rest[0] == ',' && ReadLabels(rest[1..]).Some? ==>
              ReadLabels(s) == Some([l] + ReadLabels(rest[1..]).value)
  {
  }

  lemma {:induction false} ReadsLabels(ls: seq<Label>)
    requires ls != [] && forall l :: l in ls ==> !HasMark(l.name)
    ensures ReadLabels(Join(ls) + "}") == Some(ls)
  {
    var l := ls[0];
    var rest := if |ls| == 1 then "}" else "," + (Join(ls[1..]) + "}");
    if |ls| > 1 {
      JoinStep(ls);
      ReadsLabels(ls[1..]);
      assert rest[1..] == Join(ls[1..]) + "}";
    }
    ReadsOne(l, rest);
    ReadStep(RenderOne(l) + rest, EscapeEach(l.value) + ("\"" + rest), l, rest);
    ShiftHead([], ls);
    assert |ls| == 1 ==> ls == [l];
  }

  lemma {:induction false} RenderThenParse(ls: seq<Label>)
    requires forall l :: l in ls ==> !HasMark(l.name)
    ensures Parse(Render(ls)) == Some(ToMap(ls))
  {
    if ls != [] {
      ReadsLabels(ls);
      assert ("{" + Join(ls) + "}")[1..] == Join(ls) + "}";
    }
  }

  lemma {:induction false} AssignKeepsNamesDistinct(d: seq<Label>, l: Label)
    requires DistinctNames(d)
    ensures DistinctNames(Assign(d, l))
    ensures forall x :: x in Assign(d, l) ==> x == l || x in d
  {
    if d != [] && d[0].name != l.name {
      AssignKeepsNamesDistinct(d[1..], l);
      var tail := Assign(d[1..], l);
      assert forall x :: x in d[1..] ==> x.name != d[0].name;
      assert forall i :: 0 <= i < |tail| ==> tail[i] in tail;
    }
  }

  lemma {:induction false} AssignUpdatesMap(d: seq<Label>, l: Label)
    ensures ToMap(Assign(d, l)) == ToMap(d)[l.name := l.value]
  {
    if d != [] {
      if d[0].name == l.name {
        assert ([l] + d[1..])[1..] == d[1..];
        assert ToMap(d)[l.name := l.value] == ToMap(d[1..])[l.name := l.value];
      } else {
        AssignUpdatesMap(d[1..], l);
        assert ([d[0]] + Assign(d[1..], l))[1..] == Assign(d[1..], l);
        assert ToMap(d)[l.name := l.value] == ToMap(d[1..])[l.name := l.value][d[0].name := d[0].value];
      }
    }
  }

  /** A later assignment wins, as in a Python dict. */
  function Overlay(m: map<string, string>, ls: seq<Label>): map<string, string>
    decreases |ls|
  {
    if ls == [] then m else Overlay(m[ls[0].name := ls[0].value], ls[1..])
  }

  lemma {:induction false} UpdateFacts(d: seq<Label>, extra: seq<Label>)
    requires DistinctNames(d)
    ensures DistinctNames(Update(d, extra)) && ToMap(Update(d, extra)) == Overlay(ToMap(d), extra)
    ensures forall x :: x in Update(d, extra) ==> x in d || x in extra
    decreases |extra|
  {
    if extra != [] {
      AssignKeepsNamesDistinct(d, extra[0]);
      AssignUpdatesMap(d, extra[0]);
      UpdateFacts(Assign(d, extra[0]), extra[1..]);
    }
  }

  lemma {:induction false} MapLookup(d: seq<Label>)
    requires DistinctNames(d)
    ensures forall n, v :: Label(n, v) in d <==> n in ToMap(d) && ToMap(d)[n] == v
  {
    if d != [] {
      MapLookup(d[1..]);
      assert d == [d[0]] + d[1..];
      assert d[0].name !in ToMap(d[1..]) by {
        if d[0].name in ToMap(d[1..]) {
          assert Label(d[0].name, ToMap(d[1..])[d[0].name]) in d[1..];
        }
      }
    }
  }

  /** Rearranging a dict with distinct names does not change the mapping. */
  lemma {:induction false} MapIgnoresOrder(d: seq<Label>, e: seq<Label>)
    requires DistinctNames(d) && multiset(d) == multiset(e)
    ensures DistinctNames(e) && ToMap(d) == ToMap(e)
  {
    NamesAfterPermutation(d, e);
    MapLookup(d);
    MapLookup(e);
    forall n ensures n in ToMap(d) <==> n in ToMap(e) {
      if n in ToMap(d) {
        assert Label(n, ToMap(d)[n]) in multiset(d);
      }
      if n in ToMap(e) {
        assert Label(n, ToMap(e)[n]) in multiset(e);
      }
    }
    forall n | n in ToMap(d) ensures ToMap(d)[n] == ToMap(e)[n] {
      assert Label(n, ToMap(d)[n]) in multiset(d);
    }
  }

  lemma NamesAfterPermutation(d: seq<Label>, e: seq<Label>)
    requires DistinctNames(d) && multiset(d) == multiset(e)
    ensures DistinctNames(e)
  {
    forall i, j | 0 <= i < j < |e| ensures e[i].name != e[j].name {
      assert e[i] in multiset(d) && e[j] in multiset(d);
      if e[i].name == e[j].name {
        assert e[i] == e[j];
        assert e == e[..i] + [e[i]] + e[i + 1..j] + [e[j]] + e[j + 1..];
        assert multiset(d)[e[i]] >= 2;
        DistinctOccursOnce(d, e[i]);
      }
    }
  }

  lemma {:induction false} DistinctOccursOnce(d: seq<Label>, l: Label)
    requires DistinctNames(d)
    ensures multiset(d)[l] <= 1
  {
    if d != [] {
      assert d == [d[0]] + d[1..];
      DistinctOccursOnce(d[1..], l);
      if d[0] == l {
        assert l !in d[1..];
      }
    }
  }

  lemma {:induction false} OverlayNames(m: map<string, string>, labels: seq<Label>)
    ensures forall l :: l in labels ==> l.name in Overlay(m, labels)
    ensures forall name :: name in m ==> name in Overlay(m, labels)
    decreases |labels|
  {
    if labels != [] {
      OverlayNames(m[labels[0].name := labels[0].value], labels[1..]);
      assert labels == [labels[0]] + labels[1..];
    }
  }

  /** Printing has an inverse, for all label values: parsing the printed text gives back the label
      mapping (extra labels override) if and only if no name holds the mark that ends a name. */
  lemma {:induction false} FormatThenParse(labels: seq<Label>, extra: seq<Label>)
    ensures Parse(FormatLabels(labels, extra)) == Some(Overlay(Overlay(map[], labels), extra))
       <==> forall l :: l in labels || l in extra ==> !HasMark(l.name)
  {
    if forall l :: l in labels || l in extra ==> !HasMark(l.name) {
      UnmarkedParse(labels, extra);
    } else {
      ParsedNamesAreUnmarked(FormatLabels(labels, extra));
      OverlayNames(map[], labels);
      OverlayNames(Overlay(map[], labels), extra);
    }
  }

  lemma {:induction false} UnmarkedParse(labels: seq<Label>, extra: seq<Label>)
    requires forall l :: l in labels || l in extra ==> !HasMark(l.name)
    ensures Parse(FormatLabels(labels, extra)) == Some(Overlay(Overlay(map[], labels), extra))
  {
    var merged := Update(Update([], labels), extra);
    UpdateFacts([], labels);
    UpdateFacts(Update([], labels), extra);
    SortPermutes(LabelLe, merged);
    var sorted := Sort(LabelLe, merged);
    MapIgnoresOrder(merged, sorted);
    forall l | l in sorted ensures !HasMark(l.name) {
      assert l in multiset(merged);
    }
    RenderThenParse(sorted);
  }

  /** Label mappings print alike only when they are equal. */
  lemma {:induction false} PrintsAlikeOnlyWhenEqual(a: seq<Label>, b: seq<Label>)
    requires forall l :: l in a || l in b ==> !HasMark(l.name)
    ensures FormatLabels(a, []) == FormatLabels(b, []) ==> Overlay(map[], a) == Overlay(map[], b)
  {
    FormatThenParse(a, []);
    FormatThenParse(b, []);
  }

  lemma LabelLeIsTotal()
    ensures TotalPreorder(LabelLe)
  {
    forall a, b ensures LabelLe(a, b) || LabelLe(b, a) {
      StrLeTotal(a.name, b.name);
      StrLeTotal(a.value, b.value);
    }
    forall a, b, c | LabelLe(a, b) && LabelLe(b, c) ensures LabelLe(a, c) {
      if a.name == b.name == c.name {
        StrLeTransitive(a.value, b.value, c.value);
      } else if a.name != b.name && b.name != c.name {
        if a.name == c.name {
          StrLeAntisymmetric(a.name, b.name);
        }
        StrLeTransitive(a.name, b.name, c.name);
      }
    }
  }

  /** And equal mappings print alike, whatever order their labels were given in. */
  lemma {:induction false} EqualMappingsPrintAlike(a: seq<Label>, b: seq<Label>)
    requires Overlay(map[], a) == Overlay(map[], b)
    ensures FormatLabels(a, []) == FormatLabels(b, [])
  {
    var d, e := Update([], a), Update([], b);
    UpdateFacts([], a);
    UpdateFacts([], b);
    MapLookup(d);
    MapLookup(e);
    forall l: Label ensures multiset(d)[l] == multiset(e)[l] {
      assert l == Label(l.name, l.value);
      assert l in d <==> l in e;
      DistinctOccursOnce(d, l);
      DistinctOccursOnce(e, l);
    }
    assert multiset(d) == multiset(e);
    LabelLeIsTotal();
    forall x, y | x in d && y in d && LabelLe(x, y) && LabelLe(y, x) ensures x == y {
      if x.name == y.name {
        StrLeAntisymmetric(x.value, y.value);
      } else {
        StrLeAntisymmetric(x.name, y.name);
      }
    }
    SortIgnoresOrder(LabelLe, d, e);
  }

  /** Labels are printed in the order of their names, each name once. */
  lemma {:induction false} PrintedByName(labels: seq<Label>, extra: seq<Label>)
    requires labels + extra != [] && forall l :: l in labels || l in extra ==> !HasMark(l.name)
    ensures var text := FormatLabels(labels, extra);
            && text != "" && text[0] == '{' && ReadLabels(text[1..]).Some?
            && var ls := ReadLabels(text[1..]).value;
               && ls != []
               && forall i, j :: 0 <= i < j < |ls| ==> StrLe(ls[i].name, ls[j].name) && ls[i].name != ls[j].name
  {
    MergedInOrder(labels, extra);
    var sorted := Sort(LabelLe, Update(Update([], labels), extra));
    ReadsLabels(sorted);
    assert Render(sorted)[1..] == Join(sorted) + "}";
  }

  lemma {:induction false} MergedInOrder(labels: seq<Label>, extra: seq<Label>)
    ensures var ls := Sort(LabelLe, Update(Update([], labels), extra));
            && (labels + extra != [] ==> ls != [])
            && (forall l :: l in ls ==> l in labels || l in extra)
            && forall i, j :: 0 <= i < j < |ls| ==> StrLe(ls[i].name, ls[j].name) && ls[i].name != ls[j].name
  {
    var merged := Update(Update([], labels), extra);
    UpdateFacts([], labels);
    UpdateFacts(Update([], labels), extra);
    LabelLeIsTotal();
    SortSorts(LabelLe, merged);
    SortPermutes(LabelLe, merged);
    var sorted := Sort(LabelLe, merged);
    SameMembers(sorted, merged);
    NamesAfterPermutation(merged, sorted);
    forall i, j | 0 <= i < j < |sorted|
      ensures StrLe(sorted[i].name, sorted[j].name) && sorted[i].name != sorted[j].name
    {
      assert LabelLe(sorted[i], sorted[j]);
    }
    if labels + extra != [] {
      OverlayNames(map[], labels);
      OverlayNames(Overlay(map[], labels), extra);
      assert (labels + extra)[0].name in ToMap(merged);
      assert merged != [];
    }
  }

  lemma {:induction false} EscapedIsOneLine(s: string)
    ensures '\n' !in EscapeEach(s)
  {
    if s != "" {
      EscapedIsOneLine(s[1..]);
    }
  }

  lemma {:induction false} JoinedIsOneLine(ls: seq<Label>)
    requires forall l :: l in ls ==> '\n' !in l.name
    ensures '\n' !in Join(ls)
  {
    if ls != [] {
      EscapingIsPerCharacter(ls[0].value);
      EscapedIsOneLine(ls[0].value);
      assert ls[0] in ls;
      JoinedIsOneLine(ls[1..]);
    }
  }

  /** Whatever the label values, the text is one line. */
  lemma {:induction false} PrintIsOneLine(labels: seq<Label>, extra: seq<Label>)
    requires forall l :: l in labels || l in extra ==> '\n' !in l.name
    ensures '\n' !in FormatLabels(labels, extra)
  {
    MergedInOrder(labels, extra);
    var merged := Update(Update([], labels), extra);
    JoinedIsOneLine(Sort(LabelLe, merged));
  }

  /** A name with the mark in it can forge a second label. Not every such name does, so the condition
      above is sufficient for distinct mappings to print differently, not necessary. */
  lemma MarkInNameForges()
    ensures var a, b := [Label("a=\"x\",b", "y")], [Label("a", "x"), Label("b", "y")];
            FormatLabels(a, []) == FormatLabels(b, []) && Overlay(map[], a) != Overlay(map[], b)
  {
    var a, b := [Label("a=\"x\",b", "y")], [Label("a", "x"), Label("b", "y")];
    EscapingIsPerCharacter("x");
    EscapingIsPerCharacter("y");
    assert "x"[1..] == "" && "y"[1..] == "";
    assert RenderOne(b[0]) == "a=\"x\"" && RenderOne(b[1]) == "b=\"y\"";
    assert b[1..] == [b[1]];
    assert Join(b) == "a=\"x\",b=\"y\"";
    assert Render(a) == Render(b);
    UpdateOne(a[0]);
    UpdateTwo(b[0], b[1]);
    assert Overlay(map[], b[..1])["b" := "y"] == Overlay(map[], b);
    assert "b" in Overlay(map[], b);
    assert a[..0] == [];
    assert "b" !in Overlay(map[], a);
  }

  lemma UpdateOne(l: Label)
    ensures Update([], [l]) == [l] && Sort(LabelLe, [l]) == [l]
  {
    assert [l][1..] == [];
  }

  lemma UpdateTwo(k: Label, l: Label)
    requires k.name != l.name && LabelLe(k, l)
    ensures Update([], [k, l]) == [k, l] && Sort(LabelLe, [k, l]) == [k, l]
  {
    assert [k, l][1..] == [l] && [l][1..] == [] && [k][1..] == [];
    assert Assign([k], l) == [k] + Assign([], l);
    assert Update([k], [l]) == Update(Assign([k], l), []);
    assert Sort(LabelLe, [l]) == [l];
  }

  // ----- histogram -----

  function CountAtMost(values: seq<real>, bound: real): nat {
    if values == [] then 0
    else CountAtMost(values[..|values| - 1], bound) + if values[|values| - 1] <= bound then 1 else 0
  }

  function Sum(values: seq<real>): real {
    if values == [] then 0.0 else Sum(values[..|values| - 1]) + values[|values| - 1]
  }

  /** The boundaries in ascending order, without repetition. */
  function SortedSet(xs: seq<real>): (s: seq<real>)
    ensures forall i, j :: 0 <= i < j < |s| ==> s[i] < s[j]
    ensures forall x :: x in s <==> x in xs
  {
    if xs == [] then []
    else
      assert xs == [xs[0]] + xs[1..];
      InsertDistinct(xs[0], SortedSet(xs[1..]))
  }

  function InsertDistinct(x: real, s: seq<real>): (r: seq<real>)
    requires forall i, j :: 0 <= i < j < |s| ==> s[i] < s[j]
    ensures forall i, j :: 0 <= i < j < |r| ==> r[i] < r[j]
    ensures forall y :: y in r <==> y == x || y in s
  {
    if s == [] || x < s[0] then [x] + s
    else if x == s[0] then s
    else
      assert s == [s[0]] + s[1..];
      var r' := InsertDistinct(x, s[1..]);
      assert forall i :: 0 <= i < |r'| ==> r'[i] in r';
      [s[0]] + r'
  }

  class Histogram {
    const buckets: seq<real>
    var counts: array<nat>
    var count: nat
    var total: real
    ghost var observed: seq<real>

    /** Each bucket counts the observations at or below its boundary. */
    ghost predicate Valid()
      reads this, counts
    {
      && counts.Length == |buckets|
      && count == |observed| && total == Sum(observed)
      && forall i :: 0 <= i < |buckets| ==> counts[i] == CountAtMost(observed, buckets[i])
    }

    constructor (boundaries: seq<real>)
      ensures Valid() && fresh(counts) && buckets == SortedSet(boundaries) && observed == []
    {
      buckets := SortedSet(boundaries);
      counts := new nat[|SortedSet(boundaries)|](_ => 0);
      count, total, observed := 0, 0.0, [];
    }

    method Observe(value: real)
      requires Valid()
      modifies this`count, this`total, this`observed, counts
      ensures Valid() && observed == old(observed) + [value]
    {
      count := count + 1;
      total := total + value;
      observed := observed + [value];
      assert observed[..|observed| - 1] == old(observed);
      for index := 0 to |buckets|
        modifies counts
        invariant forall i :: 0 <= i < index ==> counts[i] == CountAtMost(observed, buckets[i])
        invariant forall i :: index <= i < |buckets| ==> counts[i] == CountAtMost(old(observed), buckets[i])
      {
        if value <= buckets[index] {
          counts[index] := counts[index] + 1;
        }
      }
    }
  }

  /** The total of some observations is the same however they are split up. */
  lemma {:induction false} TotalsAdd(a: seq<real>, b: seq<real>)
    ensures Sum(a + b) == Sum(a) + Sum(b)
    ensures |b| == 1 ==> Sum(b) == b[0]
  {
    if b == [] {
      assert a + b == a;
    } else {
      TotalsAdd(a, b[..|b| - 1]);
      assert (a + b)[..|a + b| - 1] == a + b[..|b| - 1];
    }
  }

  /** How many observations a bucket holds: those at or below its boundary. */
  lemma {:induction false} BucketCounts(values: seq<real>, bound: real)
    ensures CountAtMost(values, bound) == |set i | 0 <= i < |values| && values[i] <= bound|
  {
    var here := set i | 0 <= i < |values| && values[i] <= bound;
    if values != [] {
      var n, init := |values| - 1, values[..|values| - 1];
      BucketCounts(init, bound);
      var before := set i | 0 <= i < |init| && init[i] <= bound;
      assert here == before + if values[n] <= bound then {n} else {};
      assert n !in before;
    }
  }

  /** The bucket counts are cumulative. */
  lemma {:induction false} BucketsAreCumulative(values: seq<real>, a: real, b: real)
    requires a <= b
    ensures CountAtMost(values, a) <= CountAtMost(values, b) <= |values|
  {
    if values != [] {
      BucketsAreCumulative(values[..|values| - 1], a, b);
    }
  }
}
