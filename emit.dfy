/** The code builder of index.js: `CodeBuilder`, which walks one element of
    the tree and appends the jQuery construction chain for it to `code`,
    indenting nested chains with the tab string `tabs`. */
module CodeBuilding {
  import opened Attributes
  import opened TreeBuilding
  import Literals
  import Strings
  import opened Sequences

  /** `literal(key) + ': ' + literal(value)`: one line of an object literal. */
  function Pair(key: string, value: string): string {
    Literals.Literal(key) + ": " + Literals.Literal(value)
  }

  /** The object-literal argument of `.attr` or `.css`, written by the
      three appends of index.js:77-79 and 92-94: nothing when there are no
      lines (index.js:76 and 91). */
  function Block(call: string, lines: seq<string>, tabs: string): (r: string)
    ensures r == "" <==> lines == []
  {
    if lines == [] then ""
    else Strings.Concat(["." + call + "({\n", tabs, "\t", Strings.Join(lines, ",\n" + tabs + "\t"), "\n", tabs, "})"])
  }

  /** The line `printAttr` pushes for one attribute (index.js:73). */
  function AttrLine(attr: (string, string)): string {
    Pair(attr.0, attr.1)
  }

  /** The lines `printAttr` collects from the plain attributes, in order. */
  function AttrLines(attr: Attrs): (r: seq<string>)
    ensures |r| == |attr|
  {
    Map(AttrLine, attr)
  }

  /** Line `i` is the pair of attribute `i`: one line per attribute, in the
      order of the attributes. */
  lemma {:induction false} AttrLinesContents(attr: Attrs)
    ensures forall i :: 0 <= i < |attr| ==> AttrLines(attr)[i] == Pair(attr[i].0, attr[i].1)
  {
    forall i | 0 <= i < |attr|
      ensures AttrLines(attr)[i] == Pair(attr[i].0, attr[i].1)
    {
      MapAt(AttrLine, attr, i);
    }
  }

  lemma {:induction false} AttrLinesStep(attr: Attrs, i: nat)
    requires i < |attr|
    ensures AttrLines(attr[..i + 1]) == AttrLines(attr[..i]) + [Pair(attr[i].0, attr[i].1)]
  {
    MapStep(AttrLine, attr, i);
  }

  /** The lines of two attribute lists one after the other are the lines of
      the first followed by those of the second. */
  lemma {:induction false} AttrLinesAppend(a: Attrs, b: Attrs)
    ensures AttrLines(a + b) == AttrLines(a) + AttrLines(b)
  {
    MapAppend(AttrLine, a, b);
  }

  /** What `printClass(klass)` appends (index.js:66-69): nothing for an
      absent or empty class. */
  function ClassText(klass: Option<string>): (r: string)
    ensures r == "" <==> klass == None || klass.value == ""
  {
    if klass == None || klass.value == "" then "" else ".addClass(" + Literals.Literal(klass.value) + ")"
  }

  /** What `printAttr(attr)` appends (index.js:70-80): nothing exactly when
      there are no plain attributes. */
  function AttrText(attr: Attrs, tabs: string): (r: string)
    ensures r == "" <==> attr == []
  {
    Block("attr", AttrLines(attr), tabs)
  }

  /** The line one `;`-segment of a style contributes: one, when the segment
      splits into exactly two `:`-parts, otherwise none (index.js:86-88). */
  function StyleLine(def: string): (r: seq<string>)
    ensures |r| <= 1
    ensures r != [] <==> Strings.Occurrences(':', def) == 1
  {
    var pair := Strings.Split(def, ':');
    if |pair| != 2 then [] else [Pair(pair[0], pair[1])]
  }

  /** A `;`-segment that splits into exactly two `:`-parts. */
  predicate IsDeclaration(def: string) {
    Strings.Occurrences(':', def) == 1
  }

  /** The key and the value of a segment: its first and its last `:`-part. */
  function DeclarationPair(def: string): (string, string) {
    var pair := Strings.Split(def, ':');
    (pair[0], pair[|pair| - 1])
  }

  /** The line of a declaration's key and value. */
  function DeclarationLine(def: string): string {
    AttrLine(DeclarationPair(def))
  }

  /** A declaration contributes the line of its key and value, any other
      segment nothing. */
  lemma {:induction false} StyleLineCases()
    ensures forall def :: StyleLine(def) == if IsDeclaration(def) then [DeclarationLine(def)] else []
  {
    forall def
      ensures StyleLine(def) == if IsDeclaration(def) then [DeclarationLine(def)] else []
    {
      var pair := Strings.Split(def, ':');
      if IsDeclaration(def) {
        assert |pair| == 2;
      }
    }
  }

  /** The lines `printStyle` collects from the segments `defs`, in order. */
  function StyleLines(defs: seq<string>): (r: seq<string>)
    ensures |r| <= |defs|
  {
    StyleLinesKeepDeclarations(defs);
    FlatMap(StyleLine, defs)
  }

  /** The lines of the segments are the lines of the declarations among
      them, in order: segments with no colon or with more than one are
      skipped, and there are as many lines as declarations. */
  lemma {:induction false} StyleLinesKeepDeclarations(defs: seq<string>)
    ensures FlatMap(StyleLine, defs) == AttrLines(Map(DeclarationPair, Filter(IsDeclaration, defs)))
    ensures |FlatMap(StyleLine, defs)| == |Filter(IsDeclaration, defs)|
  {
    StyleLineCases();
    FlatMapFilter(StyleLine, DeclarationLine, IsDeclaration, defs);
    MapCompose(AttrLine, DeclarationPair, DeclarationLine, Filter(IsDeclaration, defs));
  }

  /** The lines of two runs of segments one after the other are the lines
      of the first followed by those of the second. */
  lemma {:induction false} StyleLinesAppend(a: seq<string>, b: seq<string>)
    ensures StyleLines(a + b) == StyleLines(a) + StyleLines(b)
  {
    FlatMapAppend(StyleLine, a, b);
  }

  lemma {:induction false} StyleLinesStep(defs: seq<string>, i: nat)
    requires i < |defs|
    ensures StyleLines(defs[..i + 1]) == StyleLines(defs[..i]) + StyleLine(defs[i])
  {
    FlatMapStep(StyleLine, defs, i);
  }

  /** What `printStyle(style)` appends (index.js:81-95): nothing for an
      absent or empty style, or when no segment is well formed. */
  function StyleText(style: Option<string>, tabs: string): string {
    if style == None || style.value == "" then ""
    else Block("css", StyleLines(Strings.Split(style.value, ';')), tabs)
  }

  /** One `.on(...)` call, written by the three appends of index.js:98-100:
      the handler body is spliced in unescaped. */
  function HandlerText(event: string, body: string, tabs: string): string {
    Strings.Concat([".on(", Literals.Literal(event), ", function() {\n", tabs, "\t", body, "\n", tabs, "})"])
  }

  /** What `printOn(on)` appends: one handler call per entry, in order. */
  function OnText(on: Attrs, tabs: string): string {
    if on == [] then ""
    else OnText(on[..|on| - 1], tabs) + HandlerText(on[|on| - 1].0, on[|on| - 1].1, tabs)
  }

  /** The line break and closing parenthesis after a child (index.js:110,
      114). */
  function CloseAppend(tabs: string): string {
    "\n" + tabs + ")"
  }

  /** The `.append` call for one child of an element whose own line is
      indented by `tabs` (index.js:107-115). `sole` says whether the child is
      the only one. */
  function ChildText(kid: Node, sole: bool, tabs: string): string
    decreases kid, 1
  {
    match kid
    case Element(_, _, _) => ".append(\n" + Emit(kid, tabs + "\t") + CloseAppend(tabs)
    case Text(t) =>
      if sole then ".append(" + Literals.Literal(t) + ")"
      else Strings.Concat([".append(\n", tabs, "\t", Literals.Literal(t), CloseAppend(tabs)])
  }

  /** What `printChildren` appends for the children `kids`, in order. */
  function ChildrenText(kids: seq<Node>, sole: bool, tabs: string): string
    decreases kids, 2
  {
    if kids == [] then ""
    else ChildrenText(kids[..|kids| - 1], sole, tabs) + ChildText(kids[|kids| - 1], sole, tabs)
  }

  /** The start of a chain: the indentation and the element constructor
      (index.js:39-40). The tag name is inserted as it is. */
  function Head(name: string, tabs: string): string {
    tabs + "$('<" + name + ">')"
  }

  /** The chain `dig` appends for element `n` when `tabs` is the current
      indentation (index.js:38-47). */
  function Emit(n: Node, tabs: string): string
    requires n.Element?
    decreases n, 0
  {
    var b := Classify(n.attrs);
    Head(n.name, tabs) + ClassText(b.klass) + AttrText(b.attr, tabs) + StyleText(b.style, tabs) + OnText(b.on, tabs)
      + ChildrenText(n.children, |n.children| == 1, tabs)
  }

  /** One more child adds its `.append` call after the earlier ones. */
  lemma {:induction false} ChildrenTextStep(kids: seq<Node>, i: nat, sole: bool, tabs: string)
    requires i < |kids|
    ensures ChildrenText(kids[..i + 1], sole, tabs) == ChildrenText(kids[..i], sole, tabs) + ChildText(kids[i], sole, tabs)
  {
    assert kids[..i + 1][..i] == kids[..i];
  }

  /** An element child is its own chain one tab deeper, inside `.append(`
      and a closing line at the parent's indentation. */
  lemma {:induction false} ChildTextElement(kid: Node, sole: bool, tabs: string)
    requires kid.Element?
    ensures ChildText(kid, sole, tabs) == ".append(\n" + Emit(kid, tabs + "\t") + CloseAppend(tabs)
  {
  }

  /** A chain starts at the current indentation with the element
      constructor `$('<name>')`, before any call on it (index.js:39-40). */
  lemma {:induction false} EmitStartsWithHead(n: Node, tabs: string)
    requires n.Element?
    ensures tabs + "$('<" + n.name + ">')" <= Emit(n, tabs)
  {
    var b := Classify(n.attrs);
    var h := Head(n.name, tabs);
    var x1 := h + ClassText(b.klass);
    var x2 := x1 + AttrText(b.attr, tabs);
    var x3 := x2 + StyleText(b.style, tabs);
    var x4 := x3 + OnText(b.on, tabs);
    var x5 := x4 + ChildrenText(n.children, |n.children| == 1, tabs);
    assert Emit(n, tabs) == x5;
    PrefixAppend(h, ClassText(b.klass));
    PrefixAppend(x1, AttrText(b.attr, tabs));
    PrefixAppend(x2, StyleText(b.style, tabs));
    PrefixAppend(x3, OnText(b.on, tabs));
    PrefixAppend(x4, ChildrenText(n.children, |n.children| == 1, tabs));
    PrefixTrans(h, x1, x2);
    PrefixTrans(h, x2, x3);
    PrefixTrans(h, x3, x4);
    PrefixTrans(h, x4, x5);
  }

  lemma {:induction false} PrefixAppend(a: string, b: string)
    ensures a <= a + b
  {
    assert (a + b)[..|a|] == a;
  }

  lemma {:induction false} PrefixTrans(a: string, b: string, c: string)
    requires a <= b && b <= c
    ensures a <= c
  {
    assert c[..|b|][..|a|] == c[..|a|];
  }

  /** `printChildren` is applied child by child: the text for a list is the
      texts of its parts, one `.append` call per child in document order. */
  lemma {:induction false} ChildrenTextAppend(a: seq<Node>, b: seq<Node>, sole: bool, tabs: string)
    ensures ChildrenText(a + b, sole, tabs) == ChildrenText(a, sole, tabs) + ChildrenText(b, sole, tabs)
    decreases |b|
  {
    if b == [] {
      assert a + b == a;
    } else {
      var b' := b[..|b| - 1];
      ChildrenTextAppend(a, b', sole, tabs);
      assert (a + b)[..|a + b| - 1] == a + b';
      assert (a + b)[|a + b| - 1] == b[|b| - 1];
      var x := ChildrenText(a, sole, tabs);
      var y := ChildrenText(b', sole, tabs);
      var c := ChildText(b[|b| - 1], sole, tabs);
      assert ChildrenText(a + b, sole, tabs) == (x + y) + c;
      assert ChildrenText(b, sole, tabs) == y + c;
      AppendAssoc(x, y, c);
    }
  }

  /** The same for handlers. */
  lemma {:induction false} OnTextAppend(a: Attrs, b: Attrs, tabs: string)
    ensures OnText(a + b, tabs) == OnText(a, tabs) + OnText(b, tabs)
    decreases |b|
  {
    if b == [] {
      assert a + b == a;
    } else {
      var b' := b[..|b| - 1];
      OnTextAppend(a, b', tabs);
      assert (a + b)[..|a + b| - 1] == a + b';
      assert (a + b)[|a + b| - 1] == b[|b| - 1];
      var x := OnText(a, tabs);
      var y := OnText(b', tabs);
      var h := HandlerText(b[|b| - 1].0, b[|b| - 1].1, tabs);
      assert OnText(a + b, tabs) == (x + y) + h;
      assert OnText(b, tabs) == y + h;
      AppendAssoc(x, y, h);
    }
  }

  /** The `key:value` declarations of a list of pairs, in order. */
  function Declarations(pairs: Attrs): (r: seq<string>)
    ensures |r| == |pairs|
  {
    if pairs == [] then []
    else Declarations(pairs[..|pairs| - 1]) + [pairs[|pairs| - 1].0 + ":" + pairs[|pairs| - 1].1]
  }

  /** A style written as `key:value` declarations joined by `;`, with no `;`
      or `:` inside keys and values, yields the same lines as the attribute
      object with those pairs: one line per declaration, in order. */
  lemma {:induction false} StyleOfDeclarations(pairs: Attrs)
    requires pairs != []
    requires forall i :: 0 <= i < |pairs| ==> ';' !in pairs[i].0 && ';' !in pairs[i].1 && ':' !in pairs[i].0 && ':' !in pairs[i].1
    ensures StyleLines(Strings.Split(Strings.Join(Declarations(pairs), ";"), ';')) == AttrLines(pairs)
  {
    DeclarationsFree(pairs);
    Strings.SplitJoin(Declarations(pairs), ';');
    StyleLinesOfDeclarations(pairs);
  }

  /** No declaration holds a `;` when no key or value does. */
  lemma {:induction false} DeclarationsFree(pairs: Attrs)
    requires forall i :: 0 <= i < |pairs| ==> ';' !in pairs[i].0 && ';' !in pairs[i].1
    ensures forall i :: 0 <= i < |pairs| ==> ';' !in Declarations(pairs)[i]
  {
    if pairs != [] {
      var n := |pairs| - 1;
      DeclarationsFree(pairs[..n]);
    }
  }

  lemma {:induction false} StyleLinesOfDeclarations(pairs: Attrs)
    requires forall i :: 0 <= i < |pairs| ==> ':' !in pairs[i].0 && ':' !in pairs[i].1
    ensures StyleLines(Declarations(pairs)) == AttrLines(pairs)
  {
    if pairs != [] {
      var n := |pairs| - 1;
      var init := pairs[..n];
      var (key, value) := pairs[n];
      StyleLinesOfDeclarations(init);
      var d := Declarations(pairs);
      assert d[..n] == Declarations(init);
      assert d[n] == key + ":" + value;
      DeclarationSplits(key, value);
      assert StyleLine(d[n]) == [Pair(key, value)];
    }
  }

  /** `key:value` with no colon in either part splits into the two parts. */
  lemma {:induction false} DeclarationSplits(key: string, value: string)
    requires ':' !in key && ':' !in value
    ensures Strings.Split(key + ":" + value, ':') == [key, value]
  {
    Strings.SplitJoin([key, value], ':');
    assert Strings.Join([key, value], [':']) == key + ":" + value;
  }

  /** A style made of one well-formed declaration and one segment without a
      colon yields one line: the segment without a colon contributes
      nothing. */
  lemma {:induction false} StyleSkipsSegment(key: string, value: string, bad: string, tabs: string)
    requires ';' !in key && ';' !in value && ';' !in bad
    requires ':' !in key && ':' !in value && ':' !in bad
    ensures StyleText(Some(key + ":" + value + ";" + bad), tabs) == Block("css", [Pair(key, value)], tabs)
  {
    var def := key + ":" + value;
    var style := key + ":" + value + ";" + bad;
    assert style == Strings.Join([def, bad], [';']);
    assert style != "";
    Strings.SplitJoin([def, bad], ';');
    DeclarationSplits(key, value);
    assert StyleLine(def) == [Pair(key, value)];
    Strings.OccurrencesAbsent(':', bad);
    assert StyleLine(bad) == [];
    assert [def, bad][..1] == [def];
    assert [def][..0] == [];
    assert StyleLines([def]) == StyleLines([]) + StyleLine(def);
    assert StyleLines([def, bad]) == StyleLines([def]) + StyleLine(bad);
    assert StyleLines(Strings.Split(style, ';')) == [Pair(key, value)];
  }

  /** A style that is a single segment with no colon or with more than one,
      such as a declaration whose value is a URL with a scheme, yields no
      `.css` call at all. */
  lemma {:induction false} StyleDropsBadSegment(def: string, tabs: string)
    requires ';' !in def
    requires Strings.Occurrences(':', def) != 1
    ensures StyleText(Some(def), tabs) == ""
  {
    if def != "" {
      Strings.SplitJoin([def], ';');
      assert Strings.Join([def], [';']) == def;
      assert [def][..0] == [];
      assert StyleLine(def) == [];
      assert StyleLines([def]) == StyleLines([]) + StyleLine(def);
    }
  }

  /** The `CodeBuilder` object: `code` is the text built so far and `tabs`
      the indentation of the element being printed. */
  class CodeBuilder {
    var tabs: string
    var code: string

    /** `new CodeBuilder(tree)` (index.js:32-36): the chain for the element
        at the top level. */
    constructor (tree: Node)
      requires tree.Element?
      ensures code == Emit(tree, "") && tabs == ""
    {
      tabs := "";
      code := "";
      new;
      Dig(tree);
      AppendEmpty(Emit(tree, ""));
    }

    /** `dig(tree)` (index.js:38-47). */
    method Dig(tree: Node)
      requires tree.Element?
      modifies this
      ensures code == old(code) + Emit(tree, old(tabs))
      ensures tabs == old(tabs)
      decreases tree, 0
    {
      var h := Head(tree.name, tabs);
      code := code + h;
      var pattr, _ := ParseAttr(tree.attrs);
      var c := ClassText(pattr.klass);
      PrintClass(pattr.klass);
      AppendAssoc(old(code), h, c);
      var a := AttrText(pattr.attr, tabs);
      PrintAttr(pattr.attr);
      AppendAssoc(old(code), h + c, a);
      var st := StyleText(pattr.style, tabs);
      PrintStyle(pattr.style);
      AppendAssoc(old(code), h + c + a, st);
      var o := OnText(pattr.on, tabs);
      PrintOn(pattr.on);
      AppendAssoc(old(code), h + c + a + st, o);
      var ch := ChildrenText(tree.children, |tree.children| == 1, tabs);
      PrintChildren(tree.children);
      AppendAssoc(old(code), h + c + a + st + o, ch);
    }

    /** `printClass(klass)` (index.js:66-69). */
    method PrintClass(klass: Option<string>)
      modifies this
      ensures code == old(code) + ClassText(klass)
      ensures tabs == old(tabs)
    {
      if klass == None || klass.value == "" {
        return;
      }
      code := code + ClassText(klass);
    }

    /** `printAttr(attr)` (index.js:70-80). */
    method PrintAttr(attr: Attrs)
      modifies this
      ensures code == old(code) + AttrText(attr, tabs)
      ensures tabs == old(tabs)
    {
      var lines: seq<string> := [];
      var i := 0;
      while i < |attr|
        invariant 0 <= i <= |attr|
        invariant lines == AttrLines(attr[..i])
        invariant code == old(code) && tabs == old(tabs)
      {
        AttrLinesStep(attr, i);
        lines := lines + [Pair(attr[i].0, attr[i].1)];
        i := i + 1;
      }
      assert attr[..i] == attr;
      if |lines| == 0 {
        return;
      }
      code := code + Block("attr", lines, tabs);
    }

    /** `printStyle(style)` (index.js:81-95). */
    method PrintStyle(style: Option<string>)
      modifies this
      ensures code == old(code) + StyleText(style, tabs)
      ensures tabs == old(tabs)
    {
      if style == None || style.value == "" {
        return;
      }
      var defs := Strings.Split(style.value, ';');
      var lines: seq<string> := [];
      var i := 0;
      while i < |defs|
        invariant 0 <= i <= |defs|
        invariant lines == StyleLines(defs[..i])
        invariant code == old(code) && tabs == old(tabs)
      {
        StyleLinesStep(defs, i);
        var pair := Strings.Split(defs[i], ':');
        if |pair| == 2 {
          lines := lines + [Pair(pair[0], pair[1])];
        }
        i := i + 1;
      }
      assert defs[..i] == defs;
      if |lines| == 0 {
        return;
      }
      code := code + Block("css", lines, tabs);
    }

    /** `printOn(on)` (index.js:96-102). */
    method PrintOn(on: Attrs)
      modifies this
      ensures code == old(code) + OnText(on, tabs)
      ensures tabs == old(tabs)
    {
      var i := 0;
      while i < |on|
        invariant 0 <= i <= |on|
        invariant code == old(code) + OnText(on[..i], tabs)
        invariant tabs == old(tabs)
      {
        assert on[..i + 1][..i] == on[..i];
        var (name, body) := on[i];
        var piece := HandlerText(name, body, tabs);
        AppendAssoc(old(code), OnText(on[..i], tabs), piece);
        code := code + piece;
        i := i + 1;
      }
      assert on[..i] == on;
    }

    /** `printChildren(children)` (index.js:103-118): the children are
        printed one tab deeper, and the indentation is restored afterwards. */
    method PrintChildren(children: seq<Node>)
      modifies this
      ensures code == old(code) + ChildrenText(children, |children| == 1, old(tabs))
      ensures tabs == old(tabs)
      decreases children, 2
    {
      var ptabs := tabs;
      tabs := tabs + "\t";
      var sole := |children| == 1;
      var i := 0;
      while i < |children|
        invariant 0 <= i <= |children|
        invariant code == old(code) + ChildrenText(children[..i], sole, ptabs)
        invariant tabs == ptabs + "\t"
      {
        var done := ChildrenText(children[..i], sole, ptabs);
        PrintChild(children[i], sole, ptabs);
        ChildrenTextStep(children, i, sole, ptabs);
        AppendAssoc(old(code), done, ChildText(children[i], sole, ptabs));
        i := i + 1;
      }
      assert children[..i] == children;
      tabs := ptabs;
    }

    /** One pass of the loop of `printChildren` (index.js:107-115), while
        `tabs` is one tab deeper than the parent's indentation `ptabs`. */
    method PrintChild(kid: Node, sole: bool, ptabs: string)
      requires tabs == ptabs + "\t"
      modifies this
      ensures code == old(code) + ChildText(kid, sole, ptabs)
      ensures tabs == old(tabs)
      decreases kid, 1
    {
      if kid.Element? {
        code := code + ".append(\n";
        Dig(kid);
        code := code + CloseAppend(ptabs);
        ChildTextElement(kid, sole, ptabs);
        AppendAssoc(old(code), ".append(\n", Emit(kid, tabs));
        AppendAssoc(old(code), ".append(\n" + Emit(kid, tabs), CloseAppend(ptabs));
      } else if sole {
        code := code + ".append(" + Literals.Literal(kid.text) + ")";
      } else {
        code := code + ChildText(kid, sole, ptabs);
      }
    }
  }
}
