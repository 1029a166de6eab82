/**
  The libdbus append iterator as a stack machine. A message under construction
  holds the top-level arguments written so far and a stack of open containers;
  `open_container` pushes, `append_basic` writes into the innermost open
  container, and `close_container` seals the innermost one into a value and
  writes that into its parent.
 */
module DBusWriter {
  import opened Wrappers
  import opened DBusTypes

  datatype Container = VariantOf(sig: Sig) | ArrayOf(elem: Sig) | DictEntryOf

  datatype Frame = Frame(container: Container, items: seq<DValue>)

  /** Top-level arguments, and the open containers with the innermost last. */
  datatype Writer = Writer(args: seq<DValue>, open: seq<Frame>)

  /** One libdbus iterator call. */
  datatype Op = OpenContainer(c: Container) | AppendBasic(v: DValue) | CloseContainer

  /** `dbus_message_iter_init_append` on a fresh message. */
  const Fresh: Writer := Writer([], [])

  /** Writes `v` into the innermost open container, or as a top-level argument when none is open. */
  function Emit(w: Writer, v: DValue): (r: Writer)
    ensures |r.open| == |w.open|
  {
    if |w.open| == 0 then w.(args := w.args + [v])
    else
      var f := w.open[|w.open| - 1];
      w.(open := w.open[..|w.open| - 1] + [f.(items := f.items + [v])])
  }

  /** Writes the values one after another. */
  function EmitAll(w: Writer, vs: seq<DValue>): Writer
    decreases |vs|
  {
    if |vs| == 0 then w else EmitAll(Emit(w, vs[0]), vs[1..])
  }

  /** The writer with container `c` freshly opened inside it. */
  function Push(w: Writer, c: Container): Writer {
    w.(open := w.open + [Frame(c, [])])
  }

  /** The value a closed container becomes; a variant must hold exactly one value. */
  function Seal(f: Frame): Option<DValue> {
    match f.container
    case VariantOf(s) => if |f.items| == 1 then Some(Variant(s, f.items[0])) else None
    case ArrayOf(e) => Some(Array(e, f.items))
    case DictEntryOf => Some(DictEntry(f.items))
  }

  /** One iterator call; None where libdbus would refuse it. */
  function Step(w: Writer, op: Op): Option<Writer> {
    match op
    case OpenContainer(c) => Some(Push(w, c))
    case AppendBasic(v) => if IsBasic(v) then Some(Emit(w, v)) else None
    case CloseContainer =>
      if |w.open| == 0 then None
      else
        match Seal(w.open[|w.open| - 1])
        case None => None
        case Some(v) => Some(Emit(w.(open := w.open[..|w.open| - 1]), v))
  }

  /** A sequence of iterator calls, stopping at the first refused one. */
  function Run(w: Writer, ops: seq<Op>): Option<Writer>
    decreases |ops|
  {
    if |ops| == 0 then Some(w)
    else
      match Step(w, ops[0])
      case None => None
      case Some(w') => Run(w', ops[1..])
  }

  /** Opening a container, running `body` inside it, and closing it. */
  function Wrap(c: Container, body: seq<Op>): seq<Op> {
    [OpenContainer(c)] + body + [CloseContainer]
  }

  /** Running two call sequences back to back is running their concatenation. */
  lemma {:induction false} RunConcat(w: Writer, a: seq<Op>, b: seq<Op>)
    ensures Run(w, a + b) == (match Run(w, a) case None => None case Some(w') => Run(w', b))
    decreases |a|
  {
    if |a| == 0 {
      assert a + b == b;
    } else {
      assert (a + b)[0] == a[0];
      assert (a + b)[1..] == a[1..] + b;
      match Step(w, a[0])
      case None =>
      case Some(w') => RunConcat(w', a[1..], b);
    }
  }

  /** Writing values into an open container only extends that container's items. */
  lemma {:induction false} EmitAllIntoTop(w: Writer, f: Frame, vs: seq<DValue>)
    ensures EmitAll(w.(open := w.open + [f]), vs) == w.(open := w.open + [f.(items := f.items + vs)])
    decreases |vs|
  {
    if |vs| == 0 {
      assert f.items + vs == f.items;
    } else {
      var w1 := w.(open := w.open + [f]);
      var f' := f.(items := f.items + [vs[0]]);
      assert Emit(w1, vs[0]) == w.(open := w.open + [f']) by {
        assert w1.open[..|w1.open| - 1] == w.open;
      }
      EmitAllIntoTop(w, f', vs[1..]);
      assert f'.items + vs[1..] == f.items + vs;
    }
  }

  /** Writing `a` then `b` is writing `a + b`. */
  lemma {:induction false} EmitAllConcat(w: Writer, a: seq<DValue>, b: seq<DValue>)
    ensures EmitAll(w, a + b) == EmitAll(EmitAll(w, a), b)
    decreases |a|
  {
    if |a| == 0 {
      assert a + b == b;
    } else {
      assert (a + b)[0] == a[0];
      assert (a + b)[1..] == a[1..] + b;
      EmitAllConcat(Emit(w, a[0]), a[1..], b);
    }
  }

  /** A body that writes `vs` into a fresh container, wrapped in open/close, writes the sealed container. */
  lemma {:induction false} RunWrap(w: Writer, c: Container, body: seq<Op>, vs: seq<DValue>, v: DValue)
    requires Run(Push(w, c), body) == Some(EmitAll(Push(w, c), vs))
    requires Seal(Frame(c, vs)) == Some(v)
    ensures Run(w, Wrap(c, body)) == Some(Emit(w, v))
  {
    var w1 := Push(w, c);
    RunConcat(w, [OpenContainer(c)] + body, [CloseContainer]);
    RunConcat(w, [OpenContainer(c)], body);
    assert Run(w, [OpenContainer(c)]) == Some(w1);
    EmitAllIntoTop(w, Frame(c, []), vs);
    var w2 := EmitAll(w1, vs);
    assert w2 == w.(open := w.open + [Frame(c, [] + vs)]);
    assert [] + vs == vs;
    assert w2.open[..|w2.open| - 1] == w.open;
    assert w2.(open := w2.open[..|w2.open| - 1]) == w;
    assert Run(w2, [CloseContainer]) == Step(w2, CloseContainer);
  }

  /** Writing a single value. */
  lemma EmitAllOne(w: Writer, v: DValue)
    ensures EmitAll(w, [v]) == Emit(w, v)
  {
    assert [v][1..] == [];
  }

  /** One basic value appended is that value written. */
  lemma RunAppendBasic(w: Writer, v: DValue)
    requires IsBasic(v)
    ensures Run(w, [AppendBasic(v)]) == Some(EmitAll(w, [v]))
  {
    assert [v][1..] == [];
  }
}
