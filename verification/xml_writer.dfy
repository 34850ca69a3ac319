/** The XML writer toSFCC drives (the `xml-writer` package, whose code is not
    part of this model), reduced to the token stream it emits and the stack of
    elements it keeps open. Text escaping and byte output are not modelled.

    The reference side is `Replay`: the open elements computed from the token
    stream alone. A writer is consistent when its stack is what its tokens
    replay to; a document is balanced when its tokens replay to no open
    element. */
module XmlWriter {
  import opened Common

  /** A text or attribute value as JavaScript hands it to the writer. */
  datatype Value = Text(s: string) | Number(n: int) | Undefined

  datatype Attr = Attr(name: string, value: string)

  datatype Token =
    | Declaration(version: string, encoding: string)  // startDocument
    | Open(name: string, attrs: seq<Attr>)              // startElement with its writeAttribute calls
    | Leaf(name: string, value: Value)                  // writeElement: an element holding one text
    | Close                                             // endElement

  datatype Writer = Writer(stack: seq<string>, tokens: seq<Token>)

  /** The elements left open by `ts`, outermost first; None when a Close
      finds no element open. */
  function Replay(ts: seq<Token>): Option<seq<string>> {
    if ts == [] then Some([])
    else
      match Replay(ts[..|ts|-1])
      case None => None
      case Some(open) => Apply(open, ts[|ts|-1])
  }

  /** What one token does to the open elements. */
  function Apply(open: seq<string>, t: Token): Option<seq<string>> {
    match t
    case Open(name, _) => Some(open + [name])
    case Close => if open == [] then None else Some(open[..|open|-1])
    case _ => Some(open)
  }

  /** Every element opened by `ts` is closed, and no Close is unmatched. */
  predicate Balanced(ts: seq<Token>) {
    Replay(ts) == Some([])
  }

  predicate Consistent(w: Writer) {
    Replay(w.tokens) == Some(w.stack)
  }

  /** The number of elements named `name` that `ts` opens. */
  function Opens(ts: seq<Token>, name: string): nat {
    if ts == [] then 0
    else Opens(ts[..|ts|-1], name) + (if ts[|ts|-1].Open? && ts[|ts|-1].name == name then 1 else 0)
  }

  /** The text of the first `name` leaf of `ts`. */
  function Field(ts: seq<Token>, name: string): Option<Value> {
    if ts == [] then None
    else if ts[0].Leaf? && ts[0].name == name then Some(ts[0].value)
    else Field(ts[1..], name)
  }

  lemma FieldAt(ts: seq<Token>, k: int, name: string)
    requires 0 <= k < |ts| && ts[k].Leaf? && ts[k].name == name
    requires forall i :: 0 <= i < k ==> !(ts[i].Leaf? && ts[i].name == name)
    ensures Field(ts, name) == Some(ts[k].value)
  {
    if k > 0 {
      FieldAt(ts[1..], k - 1, name);
    }
  }

  lemma FieldAbsent(ts: seq<Token>, name: string)
    requires forall i :: 0 <= i < |ts| ==> !(ts[i].Leaf? && ts[i].name == name)
    ensures Field(ts, name) == None
  {
    if ts != [] {
      FieldAbsent(ts[1..], name);
    }
  }

  /** The opens of one token. */
  lemma OpensOne(t: Token, name: string)
    ensures Opens([t], name) == if t.Open? && t.name == name then 1 else 0
  {
    assert [t][..0] == [];
  }

  /** Opens adds up over concatenation. */
  lemma {:induction false} OpensConcat(a: seq<Token>, b: seq<Token>, name: string)
    ensures Opens(a + b, name) == Opens(a, name) + Opens(b, name)
  {
    if b == [] {
      assert a + b == a;
    } else {
      var b' := b[..|b|-1];
      OpensConcat(a, b', name);
      assert (a + b)[..|a + b| - 1] == a + b';
      assert (a + b)[|a + b| - 1] == b[|b| - 1];
    }
  }

  /** Tokens that open nothing. */
  lemma {:induction false} OpensNone(ts: seq<Token>, name: string)
    requires forall i :: 0 <= i < |ts| ==> !ts[i].Open?
    ensures Opens(ts, name) == 0
  {
    if ts != [] {
      OpensNone(ts[..|ts|-1], name);
    }
  }

  /** A writer whose stack agrees with its tokens still agrees after one more
      token, with the stack that token leaves. */
  lemma Extend(w: Writer, t: Token)
    requires Consistent(w)
    ensures Replay(w.tokens + [t]) == Apply(w.stack, t)
  {
    PrefixOfSnoc(w.tokens, t, |w.tokens|);
  }

  function StartDocument(version: string, encoding: string): (w: Writer)
    ensures Consistent(w) && w.stack == []
  {
    var w := Writer([], [Declaration(version, encoding)]);
    assert w.tokens[..0] == [];
    w
  }

  /** Opens an element: it goes on top of the stack. */
  function StartElement(w: Writer, name: string, attrs: seq<Attr>): (w': Writer)
    ensures w'.stack == w.stack + [name]
    ensures w'.tokens == w.tokens + [Open(name, attrs)]
  {
    Writer(w.stack + [name], w.tokens + [Open(name, attrs)])
  }

  /** Closes the innermost open element. */
  function EndElement(w: Writer): (w': Writer)
    requires w.stack != []
    ensures w'.stack == w.stack[..|w.stack|-1]
    ensures w'.tokens == w.tokens + [Close]
  {
    Writer(w.stack[..|w.stack|-1], w.tokens + [Close])
  }

  /** Writes a complete element holding `v`; the stack is unchanged. */
  function WriteElement(w: Writer, name: string, v: Value): (w': Writer)
    ensures w'.stack == w.stack
    ensures w'.tokens == w.tokens + [Leaf(name, v)]
  {
    Writer(w.stack, w.tokens + [Leaf(name, v)])
  }

  /** Each writer call keeps the stack in agreement with the tokens. */
  lemma StartKeeps(w: Writer, name: string, attrs: seq<Attr>)
    requires Consistent(w)
    ensures Consistent(StartElement(w, name, attrs))
  {
    Extend(w, Open(name, attrs));
  }

  lemma EndKeeps(w: Writer)
    requires Consistent(w) && w.stack != []
    ensures Consistent(EndElement(w))
  {
    Extend(w, Close);
  }

  lemma WriteKeeps(w: Writer, name: string, v: Value)
    requires Consistent(w)
    ensures Consistent(WriteElement(w, name, v))
  {
    Extend(w, Leaf(name, v));
  }
}
