/** The conversion of index.js (`module.exports`, index.js:145-160): the
    events of a document are fed to a `ParserParser`, and each entry of the
    resulting top level becomes one string: the chain of a `CodeBuilder` for
    an element, the literal for a text. */
module Driver {
  import opened Attributes
  import opened TreeBuilding
  import opened CodeBuilding
  import Literals
  import opened Sequences

  /** The string the loop of index.js:151-159 pushes for one top-level
      entry. */
  function EntryCode(n: Node): string {
    if n.Element? then Emit(n, "") else Literals.Literal(n.text)
  }

  /** The body of the result loop (index.js:153-157): a fresh `CodeBuilder`
      for an element, `literal` for a text. */
  method EntryString(n: Node) returns (code: string)
    ensures code == EntryCode(n)
  {
    if n.Element? {
      var builder := new CodeBuilder(n);
      code := builder.code;
    } else {
      code := Literals.Literal(n.text);
    }
  }

  /** The result loop (index.js:150-159): one string per top-level entry, in
      order. */
  method Generate(tree: seq<Node>) returns (result: seq<string>)
    ensures |result| == |tree|
    ensures forall i :: 0 <= i < |tree| ==> result[i] == EntryCode(tree[i])
  {
    result := [];
    var i := 0;
    while i < |tree|
      invariant 0 <= i <= |tree|
      invariant result == Map(EntryCode, tree[..i])
    {
      var code := EntryString(tree[i]);
      MapStep(EntryCode, tree, i);
      result := result + [code];
      i := i + 1;
    }
    assert tree[..i] == tree;
    forall k | 0 <= k < |tree|
      ensures result[k] == EntryCode(tree[k])
    {
      MapAt(EntryCode, tree, k);
    }
  }

  /** `module.exports(html)` for the events the tokenizer delivers for
      `html`: the builder receives them in order, and the conversion has a
      result unless an event reached the builder after its cursor was lost,
      where the source throws. */
  method Transpile(events: seq<Event>) returns (result: Option<seq<string>>)
    ensures result == None <==> Run(Initial, events).failed
    ensures result.Some? ==>
      var tree := TreeOf(Run(Initial, events));
      |result.value| == |tree| && forall i :: 0 <= i < |tree| ==> result.value[i] == EntryCode(tree[i])
    ensures Balanced(events) ==>
      result.Some? && |result.value| == |Forest(events)| &&
      forall i :: 0 <= i < |Forest(events)| ==> result.value[i] == EntryCode(Forest(events)[i])
  {
    var pp := new TreeBuilder();
    var i := 0;
    while i < |events|
      invariant 0 <= i <= |events|
      invariant pp.State() == Run(Initial, events[..i])
    {
      RunSnoc(Initial, events, i);
      match events[i] {
        case OpenTag(name, attrs) => pp.OnOpenTag(name, attrs);
        case TextEvent(text) => pp.OnText(text);
        case CloseTag => pp.OnCloseTag();
      }
      i := i + 1;
    }
    assert events[..i] == events;
    if Balanced(events) {
      BalancedBuildsForest(events);
    }
    if pp.failed {
      result := None;
    } else {
      var strings := Generate(pp.Tree());
      result := Some(strings);
    }
  }

  /** A text entry of the result is a literal that the model's reader
      (`Literals.ReadLiteral`) reads back as the text as it stands in the
      tree: the tree holds only trimmed text, so the second trim in
      `literal` changes nothing. */
  lemma {:induction false} TextEntryReadsBack(events: seq<Event>, i: nat)
    requires i < |TreeOf(Run(Initial, events))|
    requires TreeOf(Run(Initial, events))[i].Text?
    ensures var t := TreeOf(Run(Initial, events))[i].text;
      t != "" && Literals.ReadLiteral(EntryCode(TreeOf(Run(Initial, events))[i])) == t
  {
    TreeTrimmed(events);
    var t := TreeOf(Run(Initial, events))[i].text;
    assert NodeTrimmed(TreeOf(Run(Initial, events))[i]);
    Literals.LiteralRoundTrip(t);
  }
}
