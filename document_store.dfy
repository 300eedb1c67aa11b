/** The MongoDB collection the repository talks to, as far as the repository
    observes it: documents in store order, the calls it receives, and the
    cursors and single results it hands back. Filters other than match-all
    and by-id, aggregation pipelines and update expressions are opaque; their
    meaning is given by the collection's constants. */
module DocumentStore {
  import opened Outcomes
  import opened ObjectIds

  /** A stored BSON document. */
  type Doc(==)
  /** A filter document written by a caller. */
  type Query(==)
  /** An aggregation pipeline. */
  type Pipeline(==)
  /** An update document written by a caller. */
  type Expression(==)
  /** A field value of a $set. */
  type FieldValue(==)

  /** int64. */
  newtype Int64 = x: int | -0x8000_0000_0000_0000 <= x < 0x8000_0000_0000_0000

  /** The filters the repository sends: bson.D{{}} (MatchAll, a document
      whose only field is the empty key with a null value, which no stored
      document has, so every document matches), a nil filter, bson.M{"_id": id},
      and a caller's own filter. */
  datatype Filter = MatchAll | NilFilter | IdIs(id: ObjectId) | UserQuery(query: Query)

  /** A caller's update document, or ServiceBase's bson.M{"$set": values}. */
  datatype Update = UpdateExpr(expression: Expression) | SetFields(values: map<string, FieldValue>)

  /** options.FindOptions: skip and limit, each possibly unset. */
  datatype FindOptions = FindOptions(skip: Option<int>, limit: Option<int>)

  const NoOptions := FindOptions(None, None)

  /** options.Find().SetLimit(1). */
  const LimitOne := FindOptions(None, Some(1))

  /** The server rejects a negative skip. */
  const NegativeSkip := "skip must be non-negative"

  /** What FindOneAndUpdate reports when no document matches (mongo.ErrNoDocuments). */
  const NoDocuments := "mongo: no documents in result"

  /** What InsertOne reports for an identifier already stored. */
  const DuplicateKey := "E11000 duplicate key error"

  /** The calls a collection receives, in order. */
  datatype Request =
    | Find(filter: Filter, options: FindOptions)
    | Aggregate(pipeline: Pipeline)
    | Count(filter: Filter)
    | Insert(doc: Doc)
    | FindOneAndUpdate(filter: Filter, update: Update)
    | Replace(filter: Filter, doc: Doc)
    | Delete(filter: Filter)

  function Min(a: int, b: int): int
  {
    if a < b then a else b
  }

  /** The skip of a find, unset meaning 0. */
  function SkipOf(o: FindOptions): int
  {
    if o.skip.Some? then o.skip.value else 0
  }

  /** How many documents a limit admits: 0 and unset mean no limit; a
      negative limit admits as many as its absolute value, in one batch. */
  function LimitOf(o: FindOptions): nat
  {
    if o.limit.None? then 0
    else if o.limit.value < 0 then -o.limit.value
    else o.limit.value
  }

  /** The server-side page of a find over the matching documents: the
      documents after the first skip, at most LimitOf(o) of them. */
  function Window(docs: seq<Doc>, o: FindOptions): (r: Result<seq<Doc>>)
    ensures r.Err? <==> SkipOf(o) < 0
    ensures r.Err? ==> r.message == NegativeSkip
    ensures r.Ok? ==> var k := Min(SkipOf(o), |docs|);
              k + |r.value| <= |docs| && r.value == docs[k..k + |r.value|]
    ensures r.Ok? && LimitOf(o) > 0 ==> |r.value| <= LimitOf(o)
  {
    var skip := SkipOf(o);
    if skip < 0 then Err(NegativeSkip)
    else
      var k := Min(skip, |docs|);
      var n := if LimitOf(o) == 0 then |docs| - k else Min(LimitOf(o), |docs| - k);
      Ok(docs[k..k + n])
  }

  /** A limit of 0 is no limit at all; a page starting past the end is empty. */
  lemma WindowEdges(docs: seq<Doc>, skip: int)
    requires skip >= 0
    ensures Window(docs, FindOptions(Some(skip), Some(0))) == Window(docs, FindOptions(Some(skip), None))
    ensures Window(docs, FindOptions(Some(skip), None)) == Ok(docs[Min(skip, |docs|)..])
    ensures skip >= |docs| ==> Window(docs, FindOptions(Some(skip), Some(1))) == Ok([])
  {
    var k := Min(skip, |docs|);
    assert docs[k..k + (|docs| - k)] == docs[k..];
  }

  /** The page is as long as it can be: LimitOf(o) documents, or all that are
      left after the skip. */
  lemma WindowLength(docs: seq<Doc>, o: FindOptions)
    requires SkipOf(o) >= 0
    ensures var k := Min(SkipOf(o), |docs|);
            |Window(docs, o).value| == if LimitOf(o) == 0 then |docs| - k else Min(LimitOf(o), |docs| - k)
  {
  }

  /** Two consecutive pages of n documents make the page of 2n documents. */
  lemma {:induction false} WindowPagesTile(docs: seq<Doc>, skip: int, n: int)
    requires skip >= 0 && n > 0
    ensures Window(docs, FindOptions(Some(skip), Some(n))).value +
            Window(docs, FindOptions(Some(skip + n), Some(n))).value ==
            Window(docs, FindOptions(Some(skip), Some(2 * n))).value
  {
    var k := Min(skip, |docs|);
    var m := Min(skip + n, |docs|);
    var a := Min(n, |docs| - k);
    assert m == k + a;
    assert docs[k..k + a] + docs[m..m + Min(n, |docs| - m)] == docs[k..k + Min(2 * n, |docs| - k)];
  }

  /** Three documents a, b, c in store order, skip 1 and limit 1: the page is [b]. */
  lemma WindowExample(a: Doc, b: Doc, c: Doc)
    ensures Window([a, b, c], FindOptions(Some(1), Some(1))) == Ok([b])
  {
    assert [a, b, c][1..2] == [b];
  }

  /** The position of the document with identifier id in the collection. */
  function IndexOfId(entries: seq<(ObjectId, Doc)>, id: ObjectId): (r: Option<nat>)
    ensures r.None? <==> forall i :: 0 <= i < |entries| ==> entries[i].0 != id
    ensures r.Some? ==> r.value < |entries| && entries[r.value].0 == id &&
                        forall i :: 0 <= i < r.value ==> entries[i].0 != id
  {
    if entries == [] then None
    else if entries[0].0 == id then Some(0)
    else
      var rest := IndexOfId(entries[1..], id);
      assert forall i :: 1 <= i < |entries| ==> entries[i] == entries[1..][i - 1];
      if rest.None? then None else Some(rest.value + 1)
  }

  /** No two stored documents share an identifier. */
  predicate UniqueIds(entries: seq<(ObjectId, Doc)>)
  {
    forall i, j :: 0 <= i < j < |entries| ==> entries[i].0 != entries[j].0
  }

  /** The documents of the collection, in store order. */
  function Docs(entries: seq<(ObjectId, Doc)>): (r: seq<Doc>)
    ensures |r| == |entries| && forall i :: 0 <= i < |r| ==> r[i] == entries[i].1
  {
    seq(|entries|, i requires 0 <= i < |entries| => entries[i].1)
  }

  /** A MongoDB collection. The constants are its environment: outage, when
      set, is the error every call fails with; cursorFault (k, m) makes a
      cursor fail with m after its first k documents; nilFilterError is the
      driver's answer to a nil filter (None: it matches every document);
      matches, aggregate and apply give caller filters, pipelines and updates
      their meaning. */
  class Store {
    const name: string
    const outage: Option<string>
    const cursorFault: Option<(nat, string)>
    const nilFilterError: Option<string>
    const matches: (Query, Doc) -> bool
    const aggregate: (Pipeline, seq<Doc>) -> Result<seq<Doc>>
    const apply: (Update, Doc) -> Result<Doc>
    var docs: seq<(ObjectId, Doc)>
    var log: seq<Request>

    /** An empty collection that has received no call. */
    constructor (name: string, outage: Option<string>, cursorFault: Option<(nat, string)>,
                 nilFilterError: Option<string>, matches: (Query, Doc) -> bool,
                 aggregate: (Pipeline, seq<Doc>) -> Result<seq<Doc>>, apply: (Update, Doc) -> Result<Doc>)
      ensures this.name == name && this.outage == outage && this.cursorFault == cursorFault
      ensures this.nilFilterError == nilFilterError && this.matches == matches
      ensures this.aggregate == aggregate && this.apply == apply
      ensures docs == [] && log == []
    {
      this.name, this.outage, this.cursorFault, this.nilFilterError := name, outage, cursorFault, nilFilterError;
      this.matches, this.aggregate, this.apply := matches, aggregate, apply;
      docs, log := [], [];
    }

    /** Whether a stored entry passes a filter. */
    predicate Matches(f: Filter, e: (ObjectId, Doc))
    {
      match f
      case MatchAll => true
      case NilFilter => true
      case IdIs(id) => e.0 == id
      case UserQuery(q) => matches(q, e.1)
    }

    /** The positions of the entries that pass a filter: increasing, each a
        passing entry, and every passing entry among them. */
    function Positions(entries: seq<(ObjectId, Doc)>, f: Filter): (p: seq<nat>)
      ensures forall j :: 0 <= j < |p| ==> p[j] < |entries| && Matches(f, entries[p[j]])
      ensures forall j, l :: 0 <= j < l < |p| ==> p[j] < p[l]
      ensures forall i :: 0 <= i < |entries| && Matches(f, entries[i]) ==> i in p
    {
      if entries == [] then []
      else
        var init := Positions(entries[..|entries| - 1], f);
        assert forall i :: 0 <= i < |entries| - 1 ==> entries[..|entries| - 1][i] == entries[i];
        if Matches(f, entries[|entries| - 1]) then init + [|entries| - 1] else init
    }

    /** The entries that pass a filter, in store order: SelectInOrder and
        SelectComplete state the order and the completeness. */
    function Select(entries: seq<(ObjectId, Doc)>, f: Filter): (r: seq<Doc>)
      ensures |r| <= |entries|
      ensures forall d :: d in r ==> exists i :: 0 <= i < |entries| && entries[i].1 == d && Matches(f, entries[i])
    {
      if entries == [] then []
      else
        var init := Select(entries[..|entries| - 1], f);
        var last := entries[|entries| - 1];
        assert forall i :: 0 <= i < |entries| - 1 ==> entries[..|entries| - 1][i] == entries[i];
        if Matches(f, last) then init + [last.1] else init
    }

    /** The documents a filter selects now, or the driver's nil-filter error. */
    function Selected(f: Filter): (r: Result<seq<Doc>>)
      reads this
      ensures f != NilFilter ==> r == Ok(Select(docs, f))
      ensures f == NilFilter ==> r == if nilFilterError.Some? then Err(nilFilterError.value) else Ok(Docs(docs))
    {
      if !f.NilFilter? then Ok(Select(docs, f))
      else if nilFilterError.Some? then Err(nilFilterError.value)
      else
        SelectEverything(docs, NilFilter);
        Ok(Select(docs, f))
    }

    /** Select is the documents at Positions, one for one and in that order. */
    lemma {:induction false} SelectInOrder(entries: seq<(ObjectId, Doc)>, f: Filter)
      ensures var r, p := Select(entries, f), Positions(entries, f);
              |r| == |p| && forall j :: 0 <= j < |r| ==> r[j] == entries[p[j]].1
    {
      if entries != [] {
        var init := entries[..|entries| - 1];
        SelectInOrder(init, f);
        var r0, p0 := Select(init, f), Positions(init, f);
        assert forall j :: 0 <= j < |p0| ==> init[p0[j]] == entries[p0[j]];
        if Matches(f, entries[|entries| - 1]) {
          assert Select(entries, f) == r0 + [entries[|entries| - 1].1];
          assert Positions(entries, f) == p0 + [|entries| - 1];
        } else {
          assert Select(entries, f) == r0 && Positions(entries, f) == p0;
        }
      }
    }

    /** Every passing entry's document is selected. */
    lemma SelectComplete(entries: seq<(ObjectId, Doc)>, f: Filter, i: nat)
      requires i < |entries| && Matches(f, entries[i])
      ensures entries[i].1 in Select(entries, f)
    {
      var r, p := Select(entries, f), Positions(entries, f);
      SelectInOrder(entries, f);
      var j :| 0 <= j < |p| && p[j] == i;
      assert r[j] == entries[i].1;
    }

    /** MatchAll (and a nil filter the driver accepts) selects every document. */
    lemma {:induction false} SelectEverything(entries: seq<(ObjectId, Doc)>, f: Filter)
      requires f == MatchAll || f == NilFilter
      ensures Select(entries, f) == Docs(entries)
    {
      if entries != [] {
        SelectEverything(entries[..|entries| - 1], f);
        assert Docs(entries) == Docs(entries[..|entries| - 1]) + [entries[|entries| - 1].1];
      }
    }

    /** With unique identifiers, the by-id filter selects the one document
        with that identifier, or nothing. */
    lemma {:induction false} SelectById(entries: seq<(ObjectId, Doc)>, id: ObjectId)
      requires UniqueIds(entries)
      ensures IndexOfId(entries, id).None? ==> Select(entries, IdIs(id)) == []
      ensures IndexOfId(entries, id).Some? ==> Select(entries, IdIs(id)) == [entries[IndexOfId(entries, id).value].1]
    {
      if entries != [] {
        var init := entries[..|entries| - 1];
        assert forall i :: 0 <= i < |init| ==> init[i] == entries[i];
        assert UniqueIds(init);
        SelectById(init, id);
        if entries[|entries| - 1].0 == id {
          assert IndexOfId(init, id).None?;
        } else if IndexOfId(init, id).Some? {
          assert IndexOfId(entries, id) == IndexOfId(init, id);
        }
      }
    }

    /** The documents and the failure of a cursor over a page: a fault at k
        no greater than the page's length cuts the cursor after k documents. */
    function Batch(page: seq<Doc>): (r: (seq<Doc>, Option<string>))
      ensures r.1.None? ==> r.0 == page
      ensures r.1.Some? ==> |r.0| <= |page| && r.0 == page[..|r.0|]
      ensures cursorFault.None? ==> r == (page, None)
    {
      if cursorFault.Some? && cursorFault.value.0 <= |page| then
        (page[..cursorFault.value.0], Some(cursorFault.value.1))
      else (page, None)
    }

    /** What Find(f, o) answers now: the error, or the cursor's contents. */
    function FindResponse(f: Filter, o: FindOptions): (r: Result<(seq<Doc>, Option<string>)>)
      reads this
      ensures outage.Some? ==> r == Err(outage.value)
      ensures r.Ok? ==> Selected(f).Ok? && Window(Selected(f).value, o).Ok? &&
                        r.value == Batch(Window(Selected(f).value, o).value)
      ensures outage.None? && Selected(f).Ok? && Window(Selected(f).value, o).Ok? ==> r.Ok?
    {
      if outage.Some? then Err(outage.value)
      else
        match Selected(f)
        case Err(e) => Err(e)
        case Ok(sel) =>
          match Window(sel, o)
          case Err(e) => Err(e)
          case Ok(page) => Ok(Batch(page))
    }

    /** What Aggregate(p) answers now. */
    function AggregateResponse(p: Pipeline): (r: Result<(seq<Doc>, Option<string>)>)
      reads this
      ensures outage.Some? ==> r == Err(outage.value)
      ensures outage.None? && aggregate(p, Docs(docs)).Err? ==> r == Err(aggregate(p, Docs(docs)).message)
      ensures outage.None? && aggregate(p, Docs(docs)).Ok? ==> r == Ok(Batch(aggregate(p, Docs(docs)).value))
    {
      if outage.Some? then Err(outage.value)
      else
        match aggregate(p, Docs(docs))
        case Err(e) => Err(e)
        case Ok(out) => Ok(Batch(out))
    }

    /** What CountDocuments(f) answers now: how many documents f selects. */
    function CountResponse(f: Filter): (r: Result<int>)
      reads this
      ensures outage.Some? ==> r == Err(outage.value)
      ensures outage.None? && Selected(f).Ok? ==> r == Ok(|Selected(f).value|)
      ensures r.Ok? ==> 0 <= r.value <= |docs|
    {
      if outage.Some? then Err(outage.value)
      else
        match Selected(f)
        case Err(e) => Err(e)
        case Ok(sel) => Ok(|sel|)
    }

    /** Find: a fresh, open cursor over FindResponse's contents. */
    method Find(f: Filter, o: FindOptions) returns (r: Result<Cursor>)
      modifies this
      ensures docs == old(docs) && log == old(log) + [Request.Find(f, o)]
      ensures r.Ok? <==> FindResponse(f, o).Ok?
      ensures r.Err? ==> r.message == FindResponse(f, o).message
      ensures r.Ok? ==> fresh(r.value) && r.value.Unread(FindResponse(f, o).value)
    {
      log := log + [Request.Find(f, o)];
      var resp := FindResponse(f, o);
      if resp.Err? {
        return Err(resp.message);
      }
      var c := new Cursor(resp.value.0, resp.value.1);
      r := Ok(c);
    }

    /** Aggregate: a fresh, open cursor over the pipeline's output. */
    method AggregateCursor(p: Pipeline) returns (r: Result<Cursor>)
      modifies this
      ensures docs == old(docs) && log == old(log) + [Request.Aggregate(p)]
      ensures r.Ok? <==> AggregateResponse(p).Ok?
      ensures r.Err? ==> r.message == AggregateResponse(p).message
      ensures r.Ok? ==> fresh(r.value) && r.value.Unread(AggregateResponse(p).value)
    {
      log := log + [Request.Aggregate(p)];
      var resp := AggregateResponse(p);
      if resp.Err? {
        return Err(resp.message);
      }
      var c := new Cursor(resp.value.0, resp.value.1);
      r := Ok(c);
    }

    /** CountDocuments. */
    method CountDocuments(f: Filter) returns (r: Result<int>)
      modifies this
      ensures docs == old(docs) && log == old(log) + [Count(f)]
      ensures r == CountResponse(f)
    {
      log := log + [Count(f)];
      r := CountResponse(f);
    }

    /** InsertOne, with the identifier the driver generated; a stored
        identifier is refused. */
    method InsertOne(doc: Doc, generated: ObjectId) returns (r: Result<ObjectId>)
      modifies this
      ensures log == old(log) + [Insert(doc)]
      ensures outage.Some? ==> r == Err(outage.value) && docs == old(docs)
      ensures outage.None? && IndexOfId(old(docs), generated).Some? ==> r == Err(DuplicateKey) && docs == old(docs)
      ensures outage.None? && IndexOfId(old(docs), generated).None? ==>
                r == Ok(generated) && docs == old(docs) + [(generated, doc)]
      ensures UniqueIds(old(docs)) ==> UniqueIds(docs)
    {
      log := log + [Insert(doc)];
      if outage.Some? {
        return Err(outage.value);
      }
      if IndexOfId(docs, generated).Some? {
        return Err(DuplicateKey);
      }
      docs := docs + [(generated, doc)];
      r := Ok(generated);
    }

    /** What FindOneAndUpdate(id, u) answers now: the document as it was
        before the update (the driver's default), or the error. */
    function UpdateResponse(id: ObjectId, u: Update): (r: Result<Doc>)
      reads this
      ensures outage.Some? ==> r == Err(outage.value)
      ensures outage.None? && IndexOfId(docs, id).None? ==> r == Err(NoDocuments)
      ensures r.Ok? ==> IndexOfId(docs, id).Some? && r.value == docs[IndexOfId(docs, id).value].1 &&
                        apply(u, r.value).Ok?
    {
      if outage.Some? then Err(outage.value)
      else
        match IndexOfId(docs, id)
        case None => Err(NoDocuments)
        case Some(k) =>
          match apply(u, docs[k].1)
          case Err(e) => Err(e)
          case Ok(_) => Ok(docs[k].1)
    }

    /** FindOneAndUpdate: the matching document is replaced by its update
        and every other document is kept. */
    method FindOneAndUpdate(id: ObjectId, u: Update) returns (r: Result<Doc>)
      modifies this
      ensures log == old(log) + [Request.FindOneAndUpdate(IdIs(id), u)]
      ensures r == old(UpdateResponse(id, u))
      ensures r.Err? ==> docs == old(docs)
      ensures r.Ok? ==> var k := IndexOfId(old(docs), id).value;
                        docs == old(docs)[k := (id, apply(u, r.value).value)]
      ensures UniqueIds(old(docs)) ==> UniqueIds(docs)
    {
      r := UpdateResponse(id, u);
      log := log + [Request.FindOneAndUpdate(IdIs(id), u)];
      if r.Ok? {
        var k := IndexOfId(docs, id).value;
        docs := docs[k := (id, apply(u, r.value).value)];
      }
    }

    /** ReplaceOne: a missing document is no error. */
    method ReplaceOne(id: ObjectId, doc: Doc) returns (err: Option<string>)
      modifies this
      ensures log == old(log) + [Replace(IdIs(id), doc)]
      ensures outage.Some? ==> err == outage && docs == old(docs)
      ensures outage.None? ==> err == None
      ensures outage.None? && IndexOfId(old(docs), id).None? ==> docs == old(docs)
      ensures outage.None? && IndexOfId(old(docs), id).Some? ==>
                docs == old(docs)[IndexOfId(old(docs), id).value := (id, doc)]
      ensures UniqueIds(old(docs)) ==> UniqueIds(docs)
    {
      log := log + [Replace(IdIs(id), doc)];
      if outage.Some? {
        return outage;
      }
      var k := IndexOfId(docs, id);
      if k.Some? {
        docs := docs[k.value := (id, doc)];
      }
      err := None;
    }

    /** DeleteOne: a missing document is no error. */
    method DeleteOne(id: ObjectId) returns (err: Option<string>)
      modifies this
      ensures log == old(log) + [Delete(IdIs(id))]
      ensures outage.Some? ==> err == outage && docs == old(docs)
      ensures outage.None? ==> err == None
      ensures outage.None? && IndexOfId(old(docs), id).None? ==> docs == old(docs)
      ensures outage.None? && IndexOfId(old(docs), id).Some? ==>
                var k := IndexOfId(old(docs), id).value;
                docs == old(docs)[..k] + old(docs)[k + 1..]
    {
      log := log + [Delete(IdIs(id))];
      if outage.Some? {
        return outage;
      }
      var k := IndexOfId(docs, id);
      if k.Some? {
        docs := docs[..k.value] + docs[k.value + 1..];
      }
      err := None;
    }
  }

  /** A mongo.Cursor: its documents, the error it ends with, how many
      documents Next has moved past, whether Next has returned false, and
      whether it is closed. */
  class Cursor {
    const docs: seq<Doc>
    const failure: Option<string>
    var pos: nat
    var done: bool
    var closed: bool

    constructor (docs: seq<Doc>, failure: Option<string>)
      ensures Unread((docs, failure))
    {
      this.docs, this.failure := docs, failure;
      pos, done, closed := 0, false, false;
    }

    /** Open, with nothing read yet, over the given contents. */
    predicate Unread(contents: (seq<Doc>, Option<string>))
      reads this
    {
      docs == contents.0 && failure == contents.1 && pos == 0 && !done && !closed
    }

    /** Next: moves to the next document if there is one. */
    method Next() returns (more: bool)
      modifies this
      ensures more <==> old(!closed && pos < |docs|)
      ensures more ==> pos == old(pos) + 1 && done == old(done)
      ensures !more ==> pos == old(pos) && done
      ensures closed == old(closed)
    {
      if !closed && pos < |docs| {
        pos := pos + 1;
        more := true;
      } else {
        done := true;
        more := false;
      }
    }

    /** The document Next moved to; Decode applies the decoder to it. */
    function Current(): (d: Doc)
      reads this
      requires 0 < pos <= |docs|
      ensures d == docs[pos - 1]
    {
      docs[pos - 1]
    }

    /** Err: the cursor's error once Next has run out of documents. */
    function Err(): (r: Option<string>)
      reads this
      ensures r.Some? ==> done && pos == |docs| && r == failure
      ensures done && pos == |docs| ==> r == failure
    {
      if done && pos == |docs| then failure else None
    }

    /** Close. */
    method Close()
      modifies this
      ensures closed && pos == old(pos) && done == old(done)
    {
      closed := true;
    }
  }
}
