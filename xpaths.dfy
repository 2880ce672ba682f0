/** Locator generation of `server/test.py` (`generate_suitable_xpaths`).
    The browser is replaced by `find`: for a tag name it yields the elements
    `find_elements(By.TAG_NAME, tag)` would return, in document order, each
    either with the attribute values read from it or as an element whose
    attribute reads raised. */
module XPaths {
  import opened Wrappers
  import opened Strings

  /** The tags scanned, in scanning order. */
  const TagFilter: seq<string> := ["input", "button", "a", "textarea", "select"]

  /** Longest text snippet used in a text locator. */
  const SnippetLength: nat := 20

  /** What `get_attribute` and `.text` returned for one element. `None` is
      Python's `None`; like the empty string it counts as absent. */
  datatype Attributes = Attributes(
    id: Option<string>,
    name: Option<string>,
    ariaLabel: Option<string>,
    className: Option<string>,
    text: string)

  /** One element found for a tag: its attributes, or a read that raised. */
  datatype Probe = Read(attrs: Attributes) | Raises

  /** Python truthiness of an attribute value. */
  predicate Present(v: Option<string>) {
    v.Some? && v.value != ""
  }

  function ValueOf(v: Option<string>): string {
    v.GetOr("")
  }

  /** The locator chosen for an element; `ByPosition` holds the 1-based index. */
  datatype Locator =
    | ById(id: string)
    | ByName(name: string)
    | ByAriaLabel(aria: string)
    | ByClass(token: string)
    | ByText(snippet: string)
    | ByPosition(position: nat)

  /** The priority rank of a locator kind: id 0, name 1, aria-label 2,
      class 3, text 4, position 5. */
  function Rank(l: Locator): nat {
    match l
    case ById(_) => 0
    case ByName(_) => 1
    case ByAriaLabel(_) => 2
    case ByClass(_) => 3
    case ByText(_) => 4
    case ByPosition(_) => 5
  }

  /** The five candidate values in priority order; the text candidate is stripped. */
  function Candidates(a: Attributes): (c: seq<string>)
    ensures |c| == 5
  {
    [ValueOf(a.id), ValueOf(a.name), ValueOf(a.ariaLabel), ValueOf(a.className), Strip(a.text)]
  }

  /** The if/elif chain that picks the locator for the element at `index`
      (0-based) in its tag's element list. */
  function ChooseLocator(index: nat, a: Attributes): Locator {
    var text := Strip(a.text);
    if Present(a.id) then ById(a.id.value)
    else if Present(a.name) then ByName(a.name.value)
    else if Present(a.ariaLabel) then ByAriaLabel(a.ariaLabel.value)
    else if Present(a.className) then ByClass(FirstToken(a.className.value))
    else if text != "" then ByText(Escape(Take(text, SnippetLength)))
    else ByPosition(index + 1)
  }

  /** The XPath string a locator is written as for `tag`. */
  function Render(tag: string, l: Locator): string {
    match l
    case ById(v) => "//" + tag + "[@id='" + v + "']"
    case ByName(v) => "//" + tag + "[@name='" + v + "']"
    case ByAriaLabel(v) => "//" + tag + "[@aria-label='" + v + "']"
    case ByClass(v) => "//" + tag + "[contains(@class, '" + v + "')]"
    case ByText(v) => "//" + tag + "[contains(text(), \"" + v + "\")]"
    case ByPosition(k) => "(//" + tag + ")[" + Decimal(k) + "]"
  }

  /** The XPath built for one element whose attribute reads succeeded. */
  function SuitableXpath(tag: string, index: nat, a: Attributes): string {
    Render(tag, ChooseLocator(index, a))
  }

  /** The locator comes from the first non-empty candidate in the order id,
      name, aria-label, class, text; the positional form is used exactly when
      every candidate is empty. */
  lemma LocatorPriority(index: nat, a: Attributes)
    ensures var l := ChooseLocator(index, a);
      (forall j :: 0 <= j < Rank(l) ==> Candidates(a)[j] == "")
      && (Rank(l) < 5 ==> Candidates(a)[Rank(l)] != "")
      && (l.ByPosition? <==> forall j :: 0 <= j < 5 ==> Candidates(a)[j] == "")
  {
    var l, c := ChooseLocator(index, a), Candidates(a);
    assert c[0] != "" <==> Present(a.id);
    assert c[1] != "" <==> Present(a.name);
    assert c[2] != "" <==> Present(a.ariaLabel);
    assert c[3] != "" <==> Present(a.className);
    if l.ByPosition? {
      assert forall j :: 0 <= j < 5 ==> c[j] == "" by {
        assert c[4] == "";
      }
    } else {
      assert c[Rank(l)] != "";
    }
  }

  /** Id, name and aria-label locators carry the attribute value unchanged. */
  lemma AttributeLocators(index: nat, a: Attributes)
    ensures var l := ChooseLocator(index, a);
      (l.ById? ==> l.id == Candidates(a)[0])
      && (l.ByName? ==> l.name == Candidates(a)[1])
      && (l.ByAriaLabel? ==> l.aria == Candidates(a)[2])
  {
    var c := Candidates(a);
    assert c[0] == ValueOf(a.id) && c[1] == ValueOf(a.name) && c[2] == ValueOf(a.ariaLabel);
  }

  /** The class locator uses only the first space-separated token of the
      class attribute. */
  lemma ClassLocator(index: nat, a: Attributes)
    requires ChooseLocator(index, a).ByClass?
    ensures var t := ChooseLocator(index, a).token;
      var c := ValueOf(a.className);
      t <= c && ' ' !in t && (|t| < |c| ==> c[|t|] == ' ')
  {
  }

  /** The text locator holds `Take(Strip(text), 20)`, the whole stripped
      text when it is shorter, with every double quote preceded by a
      backslash; the model's own `Unescape` gives back exactly that prefix. */
  lemma TextLocator(index: nat, a: Attributes)
    requires ChooseLocator(index, a).ByText?
    ensures var v := ChooseLocator(index, a).snippet;
      var cut := Unescape(v);
      cut == Take(Strip(a.text), SnippetLength)
      && cut <= Strip(a.text) && |cut| <= SnippetLength
      && (|Strip(a.text)| >= SnippetLength ==> |cut| == SnippetLength)
      && (|Strip(a.text)| < SnippetLength ==> cut == Strip(a.text))
      && (forall i :: 0 <= i < |v| && v[i] == '"' ==> 0 < i && v[i - 1] == '\\')
  {
    var text := Strip(a.text);
    var cut := Take(text, SnippetLength);
    assert ChooseLocator(index, a).snippet == Escape(cut);
    UnescapeEscape(cut);
    EscapeQuotes(cut);
  }

  /** The positional locator holds the element's 1-based index. */
  lemma PositionalIndex(index: nat, a: Attributes)
    requires ChooseLocator(index, a).ByPosition?
    ensures ChooseLocator(index, a).position == index + 1
  {
  }

  /** The positional XPath reads back as its position, so two elements of
      one tag that both fall back to it get different XPaths. */
  lemma PositionalDistinct(tag: string, m: nat, n: nat)
    ensures Render(tag, ByPosition(m)) == Render(tag, ByPosition(n)) <==> m == n
  {
    var p, q := "(//" + tag + ")[", "]";
    var x, y := Decimal(m), Decimal(n);
    if p + x + q == p + y + q {
      assert |x| == |y|;
      assert x == (p + x + q)[|p|..|p| + |x|];
      assert y == (p + y + q)[|p|..|p| + |y|];
      DecimalInjective(m, n);
    }
  }

  /** The XPaths `build` gives the elements of one tag's list, in the order
      the inner loop appends them; an element whose reads raised adds none. */
  function Gather(build: (nat, Attributes) -> string, elems: seq<Probe>): seq<string> {
    if elems == [] then []
    else
      var n := |elems| - 1;
      Gather(build, elems[..n])
        + (match elems[n] case Read(a) => [build(n, a)] case Raises => [])
  }

  /** One more element extends the gathered list by its XPath, if its reads succeeded. */
  lemma GatherStep(build: (nat, Attributes) -> string, elems: seq<Probe>, k: nat)
    requires k < |elems|
    ensures Gather(build, elems[..k + 1])
         == Gather(build, elems[..k]) + (if elems[k].Read? then [build(k, elems[k].attrs)] else [])
  {
    assert elems[..k + 1][..k] == elems[..k];
  }

  /** The locator builder for the elements of `tag`. */
  function Builder(tag: string): (nat, Attributes) -> string {
    (i: nat, a: Attributes) => SuitableXpath(tag, i, a)
  }

  /** The `elements` list after the outer loop has scanned `tags`, each tag's
      elements getting their XPaths from `builders(tag)`. */
  function Collect(builders: string -> (nat, Attributes) -> string, find: string -> seq<Probe>, tags: seq<string>): seq<string> {
    if tags == [] then []
    else
      var tag := tags[|tags| - 1];
      Collect(builders, find, tags[..|tags| - 1]) + Gather(builders(tag), find(tag))
  }

  /** The number of elements whose reads did not raise. */
  function ReadCount(elems: seq<Probe>): nat {
    if elems == [] then 0 else ReadCount(elems[..|elems| - 1]) + (if elems[|elems| - 1].Read? then 1 else 0)
  }

  /** `x` is what `build` gives some element of `elems` whose reads succeeded. */
  predicate BuiltFor(build: (nat, Attributes) -> string, elems: seq<Probe>, x: string) {
    exists i :: 0 <= i < |elems| && elems[i].Read? && x == build(i, elems[i].attrs)
  }

  /** One XPath per element whose reads succeeded, and these are exactly its members. */
  lemma {:induction false} GatherMembers(build: (nat, Attributes) -> string, elems: seq<Probe>)
    ensures |Gather(build, elems)| == ReadCount(elems)
    ensures forall x :: x in Gather(build, elems) <==> BuiltFor(build, elems, x)
  {
    if elems != [] {
      var n := |elems| - 1;
      var front := elems[..n];
      GatherMembers(build, front);
      forall x
        ensures x in Gather(build, elems) <==> BuiltFor(build, elems, x)
      {
        if BuiltFor(build, elems, x) {
          var i :| 0 <= i < |elems| && elems[i].Read? && x == build(i, elems[i].attrs);
          if i < n {
            assert front[i] == elems[i];
            assert BuiltFor(build, front, x);
          }
        }
        if x in Gather(build, front) {
          var i :| 0 <= i < |front| && front[i].Read? && x == build(i, front[i].attrs);
          assert elems[i] == front[i];
        }
      }
    }
  }

  /** `x` is the XPath built for an element of one of the tags in `tags`. */
  predicate BuiltForSome(builders: string -> (nat, Attributes) -> string, find: string -> seq<Probe>, tags: seq<string>, x: string) {
    exists t :: 0 <= t < |tags| && BuiltFor(builders(tags[t]), find(tags[t]), x)
  }

  /** The collected list holds exactly the XPaths built for elements whose
      reads did not raise, over all scanned tags. */
  lemma {:induction false} CollectMembers(builders: string -> (nat, Attributes) -> string, find: string -> seq<Probe>, tags: seq<string>)
    ensures forall x :: x in Collect(builders, find, tags) <==> BuiltForSome(builders, find, tags, x)
  {
    if tags != [] {
      var n := |tags| - 1;
      var front := tags[..n];
      CollectMembers(builders, find, front);
      GatherMembers(builders(tags[n]), find(tags[n]));
      forall x
        ensures x in Collect(builders, find, tags) <==> BuiltForSome(builders, find, tags, x)
      {
        if BuiltForSome(builders, find, tags, x) {
          var t :| 0 <= t < |tags| && BuiltFor(builders(tags[t]), find(tags[t]), x);
          if t < n {
            assert front[t] == tags[t];
            assert BuiltForSome(builders, find, front, x);
          }
        }
        if BuiltForSome(builders, find, front, x) {
          var t :| 0 <= t < |front| && BuiltFor(builders(front[t]), find(front[t]), x);
          assert tags[t] == front[t];
        }
      }
    }
  }

  predicate NoDuplicates(s: seq<string>) {
    forall i, j :: 0 <= i < j < |s| ==> s[i] != s[j]
  }

  /** `list(set(s))`: the members of `s`, each once. Python leaves the order
      open; this definition keeps first occurrences. */
  function Distinct(s: seq<string>): (r: seq<string>)
    ensures NoDuplicates(r)
    ensures forall x :: x in r <==> x in s
  {
    if s == [] then []
    else
      var front := Distinct(s[..|s| - 1]);
      var last := s[|s| - 1];
      assert forall x :: x in s <==> x in s[..|s| - 1] || x == last;
      if last in front then front else front + [last]
  }

  /** The generator: for each tag in scanning order, for each element found,
      build its XPath unless a read raised; then drop duplicates. A string is
      generated exactly when it is the XPath of some element, of some scanned
      tag, whose reads did not raise. */
  method GenerateSuitableXpaths(find: string -> seq<Probe>) returns (xpaths: seq<string>)
    ensures NoDuplicates(xpaths)
    ensures forall x :: x in xpaths <==> x in Collect(Builder, find, TagFilter)
    ensures forall x :: x in xpaths <==> BuiltForSome(Builder, find, TagFilter, x)
  {
    var elements: seq<string> := [];
    for t := 0 to |TagFilter|
      invariant elements == Collect(Builder, find, TagFilter[..t])
    {
      var tag := TagFilter[t];
      var elems := find(tag);
      ghost var done := Collect(Builder, find, TagFilter[..t]);
      for index := 0 to |elems|
        invariant elements == done + Gather(Builder(tag), elems[..index])
      {
        GatherStep(Builder(tag), elems, index);
        match elems[index]
        case Read(a) =>
          var xpath := SuitableXpath(tag, index, a);
          assert xpath == Builder(tag)(index, a);
          elements := elements + [xpath];
        case Raises =>
      }
      assert elems[..|elems|] == elems;
      assert TagFilter[..t + 1][..t] == TagFilter[..t];
    }
    assert TagFilter[..|TagFilter|] == TagFilter;
    xpaths := Distinct(elements);
    CollectMembers(Builder, find, TagFilter);
  }
}
