/** database/repository_base.go: the generic repository over one collection.
    The package's database handle becomes the Store parameter, which must be
    the collection the repository names. */
module Repository {
  import opened Outcomes
  import opened ObjectIds
  import opened DatabaseErrors
  import opened DocumentStore
  import opened GenericDecode

  const SliceNotPointer := InvalidArgument("parameter slice must be a pointer")
  const ResNotPointer := InvalidArgument("parameter res must be a pointer")

  /** What a read that drains a cursor leaves behind: the values appended to
      the caller's slice and the error returned. */
  function ReadResult<T>(response: Result<(seq<Doc>, Option<string>)>, decode: Doc -> Result<T>): (r: (seq<T>, Option<Error>))
    ensures response.Err? ==> r == ([], Some(StoreError(response.message)))
    ensures response.Ok? ==> r == Drained(response.value.0, response.value.1, decode)
  {
    match response
    case Err(m) => ([], Some(StoreError(m)))
    case Ok(b) => Drained(b.0, b.1, decode)
  }

  /** What GetOne leaves behind: the value in res and the error returned. */
  function OneResult<T>(prior: T, response: Result<(seq<Doc>, Option<string>)>, decode: Doc -> Result<T>): (r: (T, Option<Error>))
    ensures response.Err? ==> r == (prior, Some(StoreError(response.message)))
    ensures response.Ok? && response.value.0 == [] ==> r == (prior, Some(EntityNotFound))
    ensures response.Ok? && response.value.0 != [] && decode(response.value.0[0]).Err? ==>
              r == (prior, Some(DecodeError(decode(response.value.0[0]).message)))
    ensures response.Ok? && response.value.0 != [] && decode(response.value.0[0]).Ok? ==>
              r == (decode(response.value.0[0]).value, None)
  {
    match response
    case Err(m) => (prior, Some(StoreError(m)))
    case Ok(b) =>
      if b.0 == [] then (prior, Some(EntityNotFound))
      else
        match decode(b.0[0])
        case Err(e) => (prior, Some(DecodeError(e)))
        case Ok(v) => (v, None)
  }

  /** An empty cursor is EntityNotFound even when it failed, and the failure
      of a cursor that yields a document is never reported. */
  lemma OneHidesCursorError<T>(prior: T, docs: seq<Doc>, m: string, decode: Doc -> Result<T>)
    ensures OneResult(prior, Ok(([], Some(m))), decode) == (prior, Some(EntityNotFound))
    ensures OneResult(prior, Ok((docs, Some(m))), decode) == OneResult(prior, Ok((docs, None)), decode)
    ensures OneResult(prior, Ok((docs, Some(m))), decode).1 != Some(StoreError(m))
  {
  }

  /** What UpdateOne returns and leaves in result: the store's error first;
      with a nil result nothing more; else the decoded document, or its
      decode error. */
  function UpdateResult<T>(prior: Option<T>, response: Result<Doc>, decode: Doc -> Result<T>): (r: (Option<T>, Option<Error>))
    ensures response.Err? ==> r == (prior, Some(StoreError(response.message)))
    ensures response.Ok? && prior.None? ==> r == (None, None)
    ensures response.Ok? && prior.Some? && decode(response.value).Err? ==>
              r == (prior, Some(DecodeError(decode(response.value).message)))
    ensures response.Ok? && prior.Some? && decode(response.value).Ok? ==>
              r == (Some(decode(response.value).value), None)
  {
    match response
    case Err(m) => (prior, Some(StoreError(m)))
    case Ok(doc) =>
      if prior.None? then (None, None)
      else
        match decode(doc)
        case Err(e) => (prior, Some(DecodeError(e)))
        case Ok(v) => (Some(v), None)
  }

  function Wrap(e: Option<string>): (r: Option<Error>)
    ensures e.None? <==> r.None?
    ensures e.Some? ==> r == Some(StoreError(e.value))
  {
    if e.Some? then Some(StoreError(e.value)) else None
  }

  /** RepositoryBase: a value naming its collection. */
  datatype RepositoryBase = RepositoryBase(collectionName: string) {

    /** fill: the pointer check, then the Drain loop. */
    method Fill<T>(slice: SliceArg<T>, cursor: Cursor, decode: Doc -> Result<T>) returns (err: Option<Error>)
      requires cursor.Unread((cursor.docs, cursor.failure))
      modifies cursor, slice.Footprint()
      ensures slice.NotASlicePointer? ==> err == Some(SliceNotPointer) && unchanged(cursor)
      ensures slice.SlicePointer? ==>
                && slice.slice.items == old(slice.slice.items) + Drained(cursor.docs, cursor.failure, decode).0
                && err == Drained(cursor.docs, cursor.failure, decode).1
      ensures !cursor.closed
    {
      if slice.NotASlicePointer? {
        return Some(SliceNotPointer);
      }
      err := Drain(cursor, decode, slice.slice);
    }

    /** query: Find with the filter and no options, then fill; the cursor is
        closed on every path once Find succeeded. */
    method Query<T>(store: Store, filter: Filter, slice: SliceArg<T>, decode: Doc -> Result<T>)
      returns (err: Option<Error>, ghost cursor: Cursor?)
      requires store.name == collectionName
      modifies store, slice.Footprint()
      ensures store.docs == old(store.docs)
      ensures slice.NotASlicePointer? ==> err == Some(SliceNotPointer) && store.log == old(store.log)
      ensures slice.SlicePointer? ==>
                && store.log == old(store.log) + [Find(filter, NoOptions)]
                && slice.slice.items == old(slice.slice.items) + ReadResult(store.FindResponse(filter, NoOptions), decode).0
                && err == ReadResult(store.FindResponse(filter, NoOptions), decode).1
      ensures cursor != null <==> slice.SlicePointer? && store.FindResponse(filter, NoOptions).Ok?
      ensures cursor != null ==> cursor.closed
      ensures cursor != null ==> fresh(cursor) && var r := store.FindResponse(filter, NoOptions);
                r.Ok? && (cursor.docs, cursor.failure) == r.value
    {
      cursor := null;
      if slice.NotASlicePointer? {
        return Some(SliceNotPointer), null;
      }
      var cur := store.Find(filter, NoOptions);
      if cur.Err? {
        return Some(StoreError(cur.message)), null;
      }
      cursor := cur.value;
      err := Fill(slice, cur.value, decode);
      cur.value.Close();
    }

    /** queryAndPage: as query, with skip and limit forwarded as find options. */
    method QueryAndPage<T>(store: Store, filter: Filter, slice: SliceArg<T>, skip: Int64, limit: Int64,
                           decode: Doc -> Result<T>) returns (err: Option<Error>, ghost cursor: Cursor?)
      requires store.name == collectionName
      modifies store, slice.Footprint()
      ensures store.docs == old(store.docs)
      ensures slice.NotASlicePointer? ==> err == Some(SliceNotPointer) && store.log == old(store.log)
      ensures slice.SlicePointer? ==>
                var o := FindOptions(Some(skip as int), Some(limit as int));
                && store.log == old(store.log) + [Find(filter, o)]
                && slice.slice.items == old(slice.slice.items) + ReadResult(store.FindResponse(filter, o), decode).0
                && err == ReadResult(store.FindResponse(filter, o), decode).1
      ensures var o := FindOptions(Some(skip as int), Some(limit as int));
              cursor != null <==> slice.SlicePointer? && store.FindResponse(filter, o).Ok?
      ensures cursor != null ==> cursor.closed
      ensures var o := FindOptions(Some(skip as int), Some(limit as int));
              cursor != null ==> fresh(cursor) && var r := store.FindResponse(filter, o);
                r.Ok? && (cursor.docs, cursor.failure) == r.value
    {
      cursor := null;
      if slice.NotASlicePointer? {
        return Some(SliceNotPointer), null;
      }
      var o := FindOptions(Some(skip as int), Some(limit as int));
      var cur := store.Find(filter, o);
      if cur.Err? {
        return Some(StoreError(cur.message)), null;
      }
      cursor := cur.value;
      err := Fill(slice, cur.value, decode);
      cur.value.Close();
    }

    /** Aggregate: run the pipeline, then fill. */
    method Aggregate<T>(store: Store, pipeline: Pipeline, slice: SliceArg<T>, decode: Doc -> Result<T>)
      returns (err: Option<Error>, ghost cursor: Cursor?)
      requires store.name == collectionName
      modifies store, slice.Footprint()
      ensures store.docs == old(store.docs)
      ensures slice.NotASlicePointer? ==> err == Some(SliceNotPointer) && store.log == old(store.log)
      ensures slice.SlicePointer? ==>
                && store.log == old(store.log) + [Request.Aggregate(pipeline)]
                && slice.slice.items == old(slice.slice.items) + ReadResult(store.AggregateResponse(pipeline), decode).0
                && err == ReadResult(store.AggregateResponse(pipeline), decode).1
      ensures cursor != null <==> slice.SlicePointer? && store.AggregateResponse(pipeline).Ok?
      ensures cursor != null ==> cursor.closed
      ensures cursor != null ==> fresh(cursor) && var r := store.AggregateResponse(pipeline);
                r.Ok? && (cursor.docs, cursor.failure) == r.value
    {
      cursor := null;
      if slice.NotASlicePointer? {
        return Some(SliceNotPointer), null;
      }
      var cur := store.AggregateCursor(pipeline);
      if cur.Err? {
        return Some(StoreError(cur.message)), null;
      }
      cursor := cur.value;
      err := Fill(slice, cur.value, decode);
      cur.value.Close();
    }

    /** GetOne: Find with limit 1; EntityNotFound when nothing comes back;
        else decode the document into res. */
    method GetOne<T>(store: Store, filter: Filter, res: ResArg<T>, decode: Doc -> Result<T>)
      returns (err: Option<Error>, ghost cursor: Cursor?)
      requires store.name == collectionName
      modifies store, res.Footprint()
      ensures store.docs == old(store.docs)
      ensures res.NotAResPointer? ==> err == Some(ResNotPointer) && store.log == old(store.log)
      ensures res.ResPointer? ==>
                && store.log == old(store.log) + [Find(filter, LimitOne)]
                && (res.res.value, err) == OneResult(old(res.res.value), store.FindResponse(filter, LimitOne), decode)
      ensures cursor != null <==> res.ResPointer? && store.FindResponse(filter, LimitOne).Ok?
      ensures cursor != null ==> cursor.closed
      ensures cursor != null ==> fresh(cursor) && var r := store.FindResponse(filter, LimitOne);
                r.Ok? && (cursor.docs, cursor.failure) == r.value
    {
      cursor := null;
      if res.NotAResPointer? {
        return Some(ResNotPointer), null;
      }
      var cur := store.Find(filter, LimitOne);
      if cur.Err? {
        return Some(StoreError(cur.message)), null;
      }
      var c := cur.value;
      cursor := c;
      var more := c.Next();
      if !more {
        c.Close();
        return Some(EntityNotFound), cursor;
      }
      var v := decode(c.Current());
      if v.Err? {
        c.Close();
        return Some(DecodeError(v.message)), cursor;
      }
      res.res.value := v.value;
      c.Close();
      err := None;
    }

    /** GetByHexID: the pointer check, then the hex parse, then GetOne by id. */
    method GetByHexID<T>(store: Store, hexID: string, res: ResArg<T>, decode: Doc -> Result<T>)
      returns (err: Option<Error>, ghost cursor: Cursor?)
      requires store.name == collectionName
      modifies store, res.Footprint()
      ensures store.docs == old(store.docs)
      ensures res.NotAResPointer? ==> err == Some(ResNotPointer) && store.log == old(store.log)
      ensures res.ResPointer? && FromHex(hexID).Failed? ==>
                err == Some(HexError(FromHex(hexID).error)) && store.log == old(store.log) &&
                res.res.value == old(res.res.value)
      ensures res.ResPointer? && FromHex(hexID).Parsed? ==>
                var f := IdIs(FromHex(hexID).id);
                && store.log == old(store.log) + [Find(f, LimitOne)]
                && (res.res.value, err) == OneResult(old(res.res.value), store.FindResponse(f, LimitOne), decode)
      ensures cursor != null <==> res.ResPointer? && FromHex(hexID).Parsed? && store.FindResponse(IdIs(FromHex(hexID).id), LimitOne).Ok?
      ensures cursor != null ==> cursor.closed
      ensures cursor != null ==> fresh(cursor) && FromHex(hexID).Parsed? && var r := store.FindResponse(IdIs(FromHex(hexID).id), LimitOne);
                r.Ok? && (cursor.docs, cursor.failure) == r.value
    {
      cursor := null;
      if res.NotAResPointer? {
        return Some(ResNotPointer), null;
      }
      var objID := FromHex(hexID);
      if objID.Failed? {
        return Some(HexError(objID.error)), null;
      }
      err, cursor := GetOne(store, IdIs(objID.id), res, decode);
    }

    /** GetByObjID: the pointer check, then GetOne by id. */
    method GetByObjID<T>(store: Store, objID: ObjectId, res: ResArg<T>, decode: Doc -> Result<T>)
      returns (err: Option<Error>, ghost cursor: Cursor?)
      requires store.name == collectionName
      modifies store, res.Footprint()
      ensures store.docs == old(store.docs)
      ensures res.NotAResPointer? ==> err == Some(ResNotPointer) && store.log == old(store.log)
      ensures res.ResPointer? ==>
                && store.log == old(store.log) + [Find(IdIs(objID), LimitOne)]
                && (res.res.value, err) == OneResult(old(res.res.value), store.FindResponse(IdIs(objID), LimitOne), decode)
      ensures cursor != null <==> res.ResPointer? && store.FindResponse(IdIs(objID), LimitOne).Ok?
      ensures cursor != null ==> cursor.closed
      ensures cursor != null ==> fresh(cursor) && var r := store.FindResponse(IdIs(objID), LimitOne);
                r.Ok? && (cursor.docs, cursor.failure) == r.value
    {
      cursor := null;
      if res.NotAResPointer? {
        return Some(ResNotPointer), null;
      }
      err, cursor := GetOne(store, IdIs(objID), res, decode);
    }

    /** GetAll: query with the match-all filter bson.D{{}}. */
    method GetAll<T>(store: Store, slice: SliceArg<T>, decode: Doc -> Result<T>)
      returns (err: Option<Error>, ghost cursor: Cursor?)
      requires store.name == collectionName
      modifies store, slice.Footprint()
      ensures store.docs == old(store.docs)
      ensures slice.NotASlicePointer? ==> err == Some(SliceNotPointer) && store.log == old(store.log)
      ensures slice.SlicePointer? ==>
                && store.log == old(store.log) + [Find(MatchAll, NoOptions)]
                && slice.slice.items == old(slice.slice.items) + ReadResult(store.FindResponse(MatchAll, NoOptions), decode).0
                && err == ReadResult(store.FindResponse(MatchAll, NoOptions), decode).1
      ensures cursor != null <==> slice.SlicePointer? && store.FindResponse(MatchAll, NoOptions).Ok?
      ensures cursor != null ==> cursor.closed
      ensures cursor != null ==> fresh(cursor) && var r := store.FindResponse(MatchAll, NoOptions);
                r.Ok? && (cursor.docs, cursor.failure) == r.value
    {
      cursor := null;
      if slice.NotASlicePointer? {
        return Some(SliceNotPointer), null;
      }
      err, cursor := Query(store, MatchAll, slice, decode);
    }

    /** GetAllWithSkipLimit: queryAndPage with the match-all filter. */
    method GetAllWithSkipLimit<T>(store: Store, slice: SliceArg<T>, skip: Int64, limit: Int64, decode: Doc -> Result<T>)
      returns (err: Option<Error>, ghost cursor: Cursor?)
      requires store.name == collectionName
      modifies store, slice.Footprint()
      ensures store.docs == old(store.docs)
      ensures slice.NotASlicePointer? ==> err == Some(SliceNotPointer) && store.log == old(store.log)
      ensures slice.SlicePointer? ==>
                var o := FindOptions(Some(skip as int), Some(limit as int));
                && store.log == old(store.log) + [Find(MatchAll, o)]
                && slice.slice.items == old(slice.slice.items) + ReadResult(store.FindResponse(MatchAll, o), decode).0
                && err == ReadResult(store.FindResponse(MatchAll, o), decode).1
      ensures var o := FindOptions(Some(skip as int), Some(limit as int));
              cursor != null <==> slice.SlicePointer? && store.FindResponse(MatchAll, o).Ok?
      ensures cursor != null ==> cursor.closed
      ensures var o := FindOptions(Some(skip as int), Some(limit as int));
              cursor != null ==> fresh(cursor) && var r := store.FindResponse(MatchAll, o);
                r.Ok? && (cursor.docs, cursor.failure) == r.value
    {
      err, cursor := QueryAndPage(store, MatchAll, slice, skip, limit, decode);
    }

    /** GetWithSkipLimit: queryAndPage with the caller's filter. */
    method GetWithSkipLimit<T>(store: Store, filter: Filter, slice: SliceArg<T>, skip: Int64, limit: Int64,
                               decode: Doc -> Result<T>) returns (err: Option<Error>, ghost cursor: Cursor?)
      requires store.name == collectionName
      modifies store, slice.Footprint()
      ensures store.docs == old(store.docs)
      ensures slice.NotASlicePointer? ==> err == Some(SliceNotPointer) && store.log == old(store.log)
      ensures slice.SlicePointer? ==>
                var o := FindOptions(Some(skip as int), Some(limit as int));
                && store.log == old(store.log) + [Find(filter, o)]
                && slice.slice.items == old(slice.slice.items) + ReadResult(store.FindResponse(filter, o), decode).0
                && err == ReadResult(store.FindResponse(filter, o), decode).1
      ensures var o := FindOptions(Some(skip as int), Some(limit as int));
              cursor != null <==> slice.SlicePointer? && store.FindResponse(filter, o).Ok?
      ensures cursor != null ==> cursor.closed
      ensures var o := FindOptions(Some(skip as int), Some(limit as int));
              cursor != null ==> fresh(cursor) && var r := store.FindResponse(filter, o);
                r.Ok? && (cursor.docs, cursor.failure) == r.value
    {
      err, cursor := QueryAndPage(store, filter, slice, skip, limit, decode);
    }

    /** CountAll: CountDocuments with the match-all filter; 0 with the error. */
    method CountAll(store: Store) returns (cnt: int, err: Option<Error>)
      requires store.name == collectionName
      modifies store
      ensures store.docs == old(store.docs) && store.log == old(store.log) + [Count(MatchAll)]
      ensures store.CountResponse(MatchAll).Err? ==> cnt == 0 && err == Some(StoreError(store.CountResponse(MatchAll).message))
      ensures store.CountResponse(MatchAll).Ok? ==> cnt == store.CountResponse(MatchAll).value && err == None
    {
      var r := store.CountDocuments(MatchAll);
      if r.Err? {
        return 0, Some(StoreError(r.message));
      }
      cnt, err := r.value, None;
    }

    /** CountWithFilter: CountDocuments with the caller's filter. */
    method CountWithFilter(store: Store, filter: Filter) returns (cnt: int, err: Option<Error>)
      requires store.name == collectionName
      modifies store
      ensures store.docs == old(store.docs) && store.log == old(store.log) + [Count(filter)]
      ensures store.CountResponse(filter).Err? ==> cnt == 0 && err == Some(StoreError(store.CountResponse(filter).message))
      ensures store.CountResponse(filter).Ok? ==> cnt == store.CountResponse(filter).value && err == None
    {
      var r := store.CountDocuments(filter);
      if r.Err? {
        return 0, Some(StoreError(r.message));
      }
      cnt, err := r.value, None;
    }

    /** InsertOne: the inserted identifier, or the zero identifier with the
        error. The identifier the driver generates is a parameter. */
    method InsertOne(store: Store, value: Doc, generated: ObjectId) returns (id: ObjectId, err: Option<Error>)
      requires store.name == collectionName
      modifies store
      ensures store.log == old(store.log) + [Insert(value)]
      ensures err.None? <==> store.outage.None? && IndexOfId(old(store.docs), generated).None?
      ensures err.None? ==> id == generated && store.docs == old(store.docs) + [(generated, value)]
      ensures err.Some? ==> id == NilObjectId && store.docs == old(store.docs) && err.value.StoreError?
      ensures UniqueIds(old(store.docs)) ==> UniqueIds(store.docs)
    {
      var r := store.InsertOne(value, generated);
      if r.Err? {
        return NilObjectId, Some(StoreError(r.message));
      }
      id, err := r.value, None;
    }

    /** UpdateOne: FindOneAndUpdate by id; its error first; nothing is
        decoded for a nil result; else the returned document is decoded. */
    method UpdateOne<T>(store: Store, id: ObjectId, update: Expression, result: Option<Slot<T>>,
                        decode: Doc -> Result<T>) returns (err: Option<Error>)
      requires store.name == collectionName
      modifies store, if result.Some? then {result.value} else {}
      ensures store.log == old(store.log) + [Request.FindOneAndUpdate(IdIs(id), UpdateExpr(update))]
      ensures var response := old(store.UpdateResponse(id, UpdateExpr(update)));
              var prior := if result.Some? then Some(old(result.value.value)) else None;
              var after := if result.Some? then Some(result.value.value) else None;
              (after, err) == UpdateResult(prior, response, decode)
      ensures UniqueIds(old(store.docs)) ==> UniqueIds(store.docs)
      ensures old(store.UpdateResponse(id, UpdateExpr(update))).Err? ==> store.docs == old(store.docs)
      ensures old(store.UpdateResponse(id, UpdateExpr(update))).Ok? ==>
                && IndexOfId(old(store.docs), id).Some?
                && var k := IndexOfId(old(store.docs), id).value;
                   store.docs == old(store.docs)[k := (id, store.apply(UpdateExpr(update), old(store.docs)[k].1).value)]
      ensures store.docs == old(store.docs) <== err.Some? && err.value.StoreError?
    {
      var doc := store.FindOneAndUpdate(id, UpdateExpr(update));
      if doc.Err? {
        return Some(StoreError(doc.message));
      }
      if result.None? {
        return None;
      }
      var v := decode(doc.value);
      if v.Err? {
        return Some(DecodeError(v.message));
      }
      result.value.value := v.value;
      err := None;
    }

    /** ReplaceOne: the store's error, if any. */
    method ReplaceOne(store: Store, id: ObjectId, entity: Doc) returns (err: Option<Error>)
      requires store.name == collectionName
      modifies store
      ensures store.log == old(store.log) + [Replace(IdIs(id), entity)]
      ensures err == Wrap(store.outage)
      ensures err.None? && IndexOfId(old(store.docs), id).Some? ==>
                store.docs == old(store.docs)[IndexOfId(old(store.docs), id).value := (id, entity)]
      ensures err.Some? || IndexOfId(old(store.docs), id).None? ==> store.docs == old(store.docs)
    {
      var e := store.ReplaceOne(id, entity);
      err := Wrap(e);
    }

    /** DeleteOne: the store's error, if any. */
    method DeleteOne(store: Store, id: ObjectId) returns (err: Option<Error>)
      requires store.name == collectionName
      modifies store
      ensures store.log == old(store.log) + [Delete(IdIs(id))]
      ensures err == Wrap(store.outage)
      ensures err.None? && IndexOfId(old(store.docs), id).Some? ==>
                var k := IndexOfId(old(store.docs), id).value;
                store.docs == old(store.docs)[..k] + old(store.docs)[k + 1..]
      ensures err.Some? || IndexOfId(old(store.docs), id).None? ==> store.docs == old(store.docs)
    {
      var e := store.DeleteOne(id);
      err := Wrap(e);
    }
  }

  /** GetAll over a healthy collection whose documents all decode: every
      document, decoded, in store order, and no error. */
  lemma GetAllReadsEverything<T>(store: Store, decode: Doc -> Result<T>)
    requires store.outage.None? && store.cursorFault.None?
    requires forall i :: 0 <= i < |store.docs| ==> decode(store.docs[i].1).Ok?
    ensures var r := ReadResult(store.FindResponse(MatchAll, NoOptions), decode);
            && r.1 == None && |r.0| == |store.docs|
            && forall i :: 0 <= i < |r.0| ==> decode(store.docs[i].1) == Ok(r.0[i])
  {
    var all := Docs(store.docs);
    store.SelectEverything(store.docs, MatchAll);
    assert store.Selected(MatchAll) == Ok(all);
    assert all[0..0 + |all|] == all;
    assert Window(all, NoOptions) == Ok(all);
    assert store.FindResponse(MatchAll, NoOptions) == Ok((all, None));
    DrainedAll(all, decode);
  }

  /** The page GetAllWithSkipLimit asks for is the window of the whole
      collection in store order; a negative skip comes back as the server's
      error with nothing appended. */
  lemma SkipLimitPage<T>(store: Store, skip: Int64, limit: Int64, decode: Doc -> Result<T>)
    requires store.outage.None? && store.cursorFault.None?
    ensures var o := FindOptions(Some(skip as int), Some(limit as int));
            skip >= 0 ==> store.FindResponse(MatchAll, o) == Ok((Window(Docs(store.docs), o).value, None))
    ensures var o := FindOptions(Some(skip as int), Some(limit as int));
            skip < 0 ==> ReadResult(store.FindResponse(MatchAll, o), decode) == ([], Some(StoreError(NegativeSkip)))
  {
    store.SelectEverything(store.docs, MatchAll);
  }

  /** CountAll counts what GetAll reads: on a healthy collection whose
      documents decode, both see every document. */
  lemma CountAllMatchesGetAll<T>(store: Store, decode: Doc -> Result<T>)
    requires store.outage.None? && store.cursorFault.None?
    requires forall i :: 0 <= i < |store.docs| ==> decode(store.docs[i].1).Ok?
    ensures store.CountResponse(MatchAll) == Ok(|ReadResult(store.FindResponse(MatchAll, NoOptions), decode).0|)
  {
    store.SelectEverything(store.docs, MatchAll);
    GetAllReadsEverything(store, decode);
  }

  /** An identifier InsertOne has just appended is found at the end. */
  lemma {:induction false} InsertedIdIsLast(entries: seq<(ObjectId, Doc)>, id: ObjectId, doc: Doc)
    requires IndexOfId(entries, id).None?
    ensures IndexOfId(entries + [(id, doc)], id) == Some(|entries|)
  {
    var all := entries + [(id, doc)];
    assert all[|entries|].0 == id;
    assert forall i :: 0 <= i < |entries| ==> all[i].0 != id by {
      assert forall i :: 0 <= i < |entries| ==> all[i] == entries[i];
    }
  }

  /** GetByObjID after InsertOne: with unique identifiers, the document
      stored under id comes back decoded into res, with no error. */
  lemma GetByObjIDFindsStored<T>(store: Store, id: ObjectId, prior: T, decode: Doc -> Result<T>)
    requires store.outage.None? && store.cursorFault.None? && UniqueIds(store.docs)
    requires IndexOfId(store.docs, id).Some?
    requires decode(store.docs[IndexOfId(store.docs, id).value].1).Ok?
    ensures OneResult(prior, store.FindResponse(IdIs(id), LimitOne), decode) ==
            (decode(store.docs[IndexOfId(store.docs, id).value].1).value, None)
  {
    store.SelectById(store.docs, id);
    var d := store.docs[IndexOfId(store.docs, id).value].1;
    assert [d][0..1] == [d];
    assert Window([d], LimitOne) == Ok([d]);
  }

  /** GetOne on an identifier that is not stored is EntityNotFound. */
  lemma GetByObjIDMissing<T>(store: Store, id: ObjectId, prior: T, decode: Doc -> Result<T>)
    requires store.outage.None? && UniqueIds(store.docs) && IndexOfId(store.docs, id).None?
    ensures OneResult(prior, store.FindResponse(IdIs(id), LimitOne), decode) == (prior, Some(EntityNotFound))
  {
    store.SelectById(store.docs, id);
    assert Window([], LimitOne) == Ok([]);
  }

  /** What a caller may conclude from the error kind of a lookup by
      identifier on a healthy collection with unique identifiers:
      EntityNotFound exactly when nothing is stored under the identifier, and
      any other error is the stored document's decode error. */
  lemma NotFoundIffAbsent<T>(store: Store, id: ObjectId, prior: T, decode: Doc -> Result<T>)
    requires store.outage.None? && store.cursorFault.None? && UniqueIds(store.docs)
    ensures var r := OneResult(prior, store.FindResponse(IdIs(id), LimitOne), decode);
            && (r.1 == Some(EntityNotFound) <==> IndexOfId(store.docs, id).None?)
            && (r.1.Some? && r.1 != Some(EntityNotFound) ==> r.1.value.DecodeError?)
  {
    store.SelectById(store.docs, id);
    if IndexOfId(store.docs, id).Some? {
      var d := store.docs[IndexOfId(store.docs, id).value].1;
      assert [d][0..1] == [d];
      assert Window([d], LimitOne) == Ok([d]);
    } else {
      assert Window([], LimitOne) == Ok([]);
    }
  }

  /** DeleteOne then GetByObjID: with unique identifiers, the deleted
      identifier is no longer stored, so reading it back is EntityNotFound. */
  lemma {:induction false} DeletedIdIsMissing<T>(entries: seq<(ObjectId, Doc)>, id: ObjectId, store: Store, prior: T,
                                                 decode: Doc -> Result<T>)
    requires UniqueIds(entries) && IndexOfId(entries, id).Some?
    requires var k := IndexOfId(entries, id).value;
             store.outage.None? && store.docs == entries[..k] + entries[k + 1..]
    ensures UniqueIds(store.docs) && IndexOfId(store.docs, id).None?
    ensures OneResult(prior, store.FindResponse(IdIs(id), LimitOne), decode) == (prior, Some(EntityNotFound))
  {
    var k := IndexOfId(entries, id).value;
    var rest := entries[..k] + entries[k + 1..];
    assert forall i :: 0 <= i < |rest| ==> rest[i] == (if i < k then entries[i] else entries[i + 1]);
    assert forall i :: 0 <= i < |rest| ==> rest[i].0 != id;
    GetByObjIDMissing(store, id, prior, decode);
  }

  /** GetOne asks for at most one document. */
  lemma GetOneAsksForOne(store: Store, f: Filter)
    requires store.FindResponse(f, LimitOne).Ok?
    ensures |store.FindResponse(f, LimitOne).value.0| <= 1
  {
  }

  /** NewRepositoryBase: a repository over the named collection. */
  function NewRepositoryBase(collectionName: string): (r: RepositoryBase)
    ensures r.collectionName == collectionName
  {
    RepositoryBase(collectionName)
  }
}
