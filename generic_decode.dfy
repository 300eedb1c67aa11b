/** The caller-owned destinations of a read and the loop that drains a cursor
    into them, shared by the fill methods of RepositoryBase and ServiceBase. */
module GenericDecode {
  import opened Outcomes
  import opened DatabaseErrors
  import opened DocumentStore

  /** The slice a *[]T points to. */
  class Container<T> {
    var items: seq<T>

    constructor (items: seq<T>)
      ensures this.items == items
    {
      this.items := items;
    }
  }

  /** The value a *T points to. */
  class Slot<T> {
    var value: T

    constructor (value: T)
      ensures this.value == value
    {
      this.value := value;
    }
  }

  /** An interface{} handed in for a slice: a pointer (reflect.Ptr), or a
      value of some other kind. */
  datatype SliceArg<T> = NotASlicePointer | SlicePointer(slice: Container<T>) {
    function Footprint(): set<object>
    {
      if SlicePointer? then {slice} else {}
    }
  }

  /** An interface{} handed in for a single result. */
  datatype ResArg<T> = NotAResPointer | ResPointer(res: Slot<T>) {
    function Footprint(): set<object>
    {
      if ResPointer? then {res} else {}
    }
  }

  /** Decoding documents in order until the first one that fails: the values
      decoded before it, and its error. */
  function DecodeAll<T>(docs: seq<Doc>, decode: Doc -> Result<T>): (r: (seq<T>, Option<string>))
    ensures |r.0| <= |docs|
    ensures forall i :: 0 <= i < |r.0| ==> decode(docs[i]) == Ok(r.0[i])
    ensures r.1.None? ==> |r.0| == |docs|
    ensures r.1.Some? ==> |r.0| < |docs| && decode(docs[|r.0|]) == Err(r.1.value)
  {
    if docs == [] then ([], None)
    else
      var init := DecodeAll(docs[..|docs| - 1], decode);
      if init.1.Some? then init
      else
        match decode(docs[|docs| - 1])
        case Ok(v) => (init.0 + [v], None)
        case Err(e) => (init.0, Some(e))
  }

  /** DecodeAll's contract pins its result down: any prefix of decoded
      values that ends where decoding ends, or at the first failure, is it. */
  lemma DecodeAllIs<T>(docs: seq<Doc>, decode: Doc -> Result<T>, vs: seq<T>, e: Option<string>)
    requires |vs| <= |docs|
    requires forall i :: 0 <= i < |vs| ==> decode(docs[i]) == Ok(vs[i])
    requires e.None? ==> |vs| == |docs|
    requires e.Some? ==> |vs| < |docs| && decode(docs[|vs|]) == Err(e.value)
    ensures DecodeAll(docs, decode) == (vs, e)
  {
    var r := DecodeAll(docs, decode);
    assert |vs| <= |r.0|;
    assert |r.0| <= |vs|;
    forall i | 0 <= i < |vs|
      ensures r.0[i] == vs[i]
    {
      assert decode(docs[i]) == Ok(vs[i]);
    }
    assert r.0 == vs;
    assert e.Some? ==> decode(docs[|r.0|]) == Err(e.value);
  }

  /** A decode error keeps what was decoded before it: decoding a longer run
      of documents never loses values already decoded. */
  lemma {:induction false} DecodeAllPrefix<T>(docs: seq<Doc>, more: seq<Doc>, decode: Doc -> Result<T>)
    ensures DecodeAll(docs, decode).1.None? ==>
              DecodeAll(docs + more, decode).0[..|docs|] == DecodeAll(docs, decode).0
    ensures DecodeAll(docs, decode).1.Some? ==> DecodeAll(docs + more, decode) == DecodeAll(docs, decode)
  {
    var r := DecodeAll(docs, decode);
    var all := docs + more;
    var s := DecodeAll(all, decode);
    assert forall i :: 0 <= i < |docs| ==> all[i] == docs[i];
    if r.1.Some? {
      DecodeAllIs(all, decode, r.0, r.1);
    } else {
      assert forall i :: 0 <= i < |docs| ==> decode(all[i]).Ok?;
      assert |s.0| >= |docs|;
    }
  }

  /** fill's result for a cursor over docs ending with failure: the values
      appended, and the decode error, else the cursor's error, else none. */
  function Drained<T>(docs: seq<Doc>, failure: Option<string>, decode: Doc -> Result<T>): (r: (seq<T>, Option<Error>))
    ensures r.0 == DecodeAll(docs, decode).0
    ensures DecodeAll(docs, decode).1.Some? ==> r.1 == Some(DecodeError(DecodeAll(docs, decode).1.value))
    ensures DecodeAll(docs, decode).1.None? && failure.Some? ==> r.1 == Some(StoreError(failure.value))
    ensures DecodeAll(docs, decode).1.None? && failure.None? ==> r.1 == None
  {
    var (vs, e) := DecodeAll(docs, decode);
    if e.Some? then (vs, Some(DecodeError(e.value)))
    else if failure.Some? then (vs, Some(StoreError(failure.value)))
    else (vs, None)
  }

  /** With every document decodable and no cursor error, every document
      arrives, in cursor order. */
  lemma DrainedAll<T>(docs: seq<Doc>, decode: Doc -> Result<T>)
    requires forall i :: 0 <= i < |docs| ==> decode(docs[i]).Ok?
    ensures Drained(docs, None, decode).1 == None
    ensures |Drained(docs, None, decode).0| == |docs|
    ensures forall i :: 0 <= i < |docs| ==> decode(docs[i]) == Ok(Drained(docs, None, decode).0[i])
  {
    assert DecodeAll(docs, decode).1.None?;
  }

  /** The loop of fill: Next, decode into a new element, append; stop at the
      first decode error; then report the cursor's error. */
  method Drain<T>(cursor: Cursor, decode: Doc -> Result<T>, c: Container<T>) returns (err: Option<Error>)
    requires cursor.Unread((cursor.docs, cursor.failure))
    modifies cursor, c
    ensures c.items == old(c.items) + Drained(cursor.docs, cursor.failure, decode).0
    ensures err == Drained(cursor.docs, cursor.failure, decode).1
    ensures !cursor.closed
  {
    ghost var base := c.items;
    ghost var vals: seq<T> := [];
    var more := cursor.Next();
    while more
      invariant !cursor.closed && cursor.pos <= |cursor.docs|
      invariant more ==> 0 < cursor.pos && |vals| == cursor.pos - 1
      invariant !more ==> cursor.pos == |cursor.docs| && cursor.done && |vals| == cursor.pos
      invariant c.items == base + vals
      invariant forall i :: 0 <= i < |vals| ==> decode(cursor.docs[i]) == Ok(vals[i])
      decreases |cursor.docs| - cursor.pos, more
    {
      var v := decode(cursor.Current());
      if v.Err? {
        DecodeAllIs(cursor.docs, decode, vals, Some(v.message));
        return Some(DecodeError(v.message));
      }
      c.items := c.items + [v.value];
      vals := vals + [v.value];
      more := cursor.Next();
    }
    DecodeAllIs(cursor.docs, decode, vals, None);
    var failure := cursor.Err();
    if failure.Some? {
      return Some(StoreError(failure.value));
    }
    err := None;
  }
}
