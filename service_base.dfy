/** database/service_base.go: the older repository variant. Its argument
    errors are errors.New values, it passes a nil filter where
    RepositoryBase passes bson.D{{}}, and its GetOne reports "not found" as
    (false, nil). */
module Service {
  import opened Outcomes
  import opened ObjectIds
  import opened DatabaseErrors
  import opened DocumentStore
  import opened GenericDecode
  import Repository

  const SliceNotPointer := Plain("parameter slice must be a pointer")
  const ResNotPointer := Plain("parameter res must be a pointer")

  /** What ServiceBase.GetOne leaves behind: the value in res, whether a
      document was found, and the error. */
  function FoundResult<T>(prior: T, response: Result<(seq<Doc>, Option<string>)>, decode: Doc -> Result<T>): (r: (T, bool, Option<Error>))
    ensures response.Err? ==> r == (prior, false, Some(StoreError(response.message)))
    ensures response.Ok? && response.value.0 != [] && decode(response.value.0[0]).Err? ==>
              r == (prior, false, Some(DecodeError(decode(response.value.0[0]).message)))
    ensures response.Ok? && response.value.0 != [] && decode(response.value.0[0]).Ok? ==>
              r == (decode(response.value.0[0]).value, true, None)
    ensures response.Ok? && response.value.0 == [] ==> r == (prior, false, Repository.Wrap(response.value.1))
  {
    match response
    case Err(m) => (prior, false, Some(StoreError(m)))
    case Ok(b) =>
      if b.0 != [] then
        match decode(b.0[0])
        case Err(e) => (prior, false, Some(DecodeError(e)))
        case Ok(v) => (v, true, None)
      else (prior, false, Repository.Wrap(b.1))
  }

  /** ServiceBase.GetOne never answers EntityNotFound; where RepositoryBase
      says EntityNotFound it says (false, nil) or (false, the cursor's
      error); otherwise the two agree, and found holds exactly when there
      is no error. */
  lemma FoundVersusOne<T>(prior: T, response: Result<(seq<Doc>, Option<string>)>, decode: Doc -> Result<T>)
    ensures FoundResult(prior, response, decode).2 != Some(EntityNotFound)
    ensures FoundResult(prior, response, decode).1 <==>
              (FoundResult(prior, response, decode).2.None? && response.Ok? && response.value.0 != [])
    ensures Repository.OneResult(prior, response, decode).1 == Some(EntityNotFound) <==>
            response.Ok? && response.value.0 == []
    ensures Repository.OneResult(prior, response, decode).1 != Some(EntityNotFound) ==>
            Repository.OneResult(prior, response, decode) ==
            (FoundResult(prior, response, decode).0, FoundResult(prior, response, decode).2)
  {
  }

  /** What ServiceBase.UpdateOne returns and leaves in result: nothing for a
      nil result, whatever the store answered; else Decode, which fails with
      the store's error first. */
  function SetResult<T>(prior: Option<T>, response: Result<Doc>, decode: Doc -> Result<T>): (r: (Option<T>, Option<Error>))
    ensures prior.None? ==> r == (None, None)
    ensures prior.Some? ==> r == Repository.UpdateResult(prior, response, decode)
  {
    if prior.None? then (None, None) else Repository.UpdateResult(prior, response, decode)
  }

  /** The two UpdateOne variants part only on a nil result: RepositoryBase
      reports the store's error, ServiceBase reports nothing, even for an
      identifier that matches no document. */
  lemma SetVersusUpdate<T>(m: string, decode: Doc -> Result<T>)
    ensures SetResult(None, Err(m), decode) == (None, None)
    ensures Repository.UpdateResult(None, Err(m), decode) == (None, Some(StoreError(m)))
    ensures SetResult(None, Err(NoDocuments), decode).1.None?
  {
  }

  /** A nil filter is the driver's: when it is accepted it selects what
      bson.D{{}} selects, else every read or count with it fails. */
  lemma NilFilterMeaning(store: Store, o: FindOptions)
    ensures store.nilFilterError.None? ==> store.FindResponse(NilFilter, o) == store.FindResponse(MatchAll, o)
    ensures store.nilFilterError.None? ==> store.CountResponse(NilFilter) == store.CountResponse(MatchAll)
    ensures store.outage.None? && store.nilFilterError.Some? ==>
              store.FindResponse(NilFilter, o) == Err(store.nilFilterError.value) &&
              store.CountResponse(NilFilter) == Err(store.nilFilterError.value)
  {
    store.SelectEverything(store.docs, MatchAll);
    store.SelectEverything(store.docs, NilFilter);
  }

  /** ServiceBase: a value naming its collection. */
  datatype ServiceBase = ServiceBase(collectionName: string) {

    /** fill: the pointer check, then the Drain loop. */
    method Fill<T>(slice: SliceArg<T>, cursor: Cursor, decode: Doc -> Result<T>) returns (err: Option<Error>)
      requires cursor.Unread((cursor.docs, cursor.failure))
      modifies cursor, slice.Footprint()
      ensures slice.NotASlicePointer? ==> err == Some(SliceNotPointer) && unchanged(cursor)
      ensures slice.SlicePointer? ==>
                && slice.slice.items == old(slice.slice.items) + Drained(cursor.docs, cursor.failure, decode).0
                && err == Drained(cursor.docs, cursor.failure, decode).1
      ensures !cursor.closed
    {
      if slice.NotASlicePointer? {
        return Some(SliceNotPointer);
      }
      err := Drain(cursor, decode, slice.slice);
    }

    /** query: Find with the filter, then fill, closing the cursor. */
    method Query<T>(store: Store, filter: Filter, slice: SliceArg<T>, decode: Doc -> Result<T>)
      returns (err: Option<Error>, ghost cursor: Cursor?)
      requires store.name == collectionName
      modifies store, slice.Footprint()
      ensures store.docs == old(store.docs)
      ensures slice.NotASlicePointer? ==> err == Some(SliceNotPointer) && store.log == old(store.log)
      ensures slice.SlicePointer? ==>
                && store.log == old(store.log) + [Find(filter, NoOptions)]
                && slice.slice.items == old(slice.slice.items) + Repository.ReadResult(store.FindResponse(filter, NoOptions), decode).0
                && err == Repository.ReadResult(store.FindResponse(filter, NoOptions), decode).1
      ensures cursor != null <==> slice.SlicePointer? && store.FindResponse(filter, NoOptions).Ok?
      ensures cursor != null ==> cursor.closed
      ensures cursor != null ==> fresh(cursor) && var r := store.FindResponse(filter, NoOptions);
                r.Ok? && (cursor.docs, cursor.failure) == r.value
    {
      cursor := null;
      if slice.NotASlicePointer? {
        return Some(SliceNotPointer), null;
      }
      var cur := store.Find(filter, NoOptions);
      if cur.Err? {
        return Some(StoreError(cur.message)), null;
      }
      cursor := cur.value;
      err := Fill(slice, cur.value, decode);
      cur.value.Close();
    }

    /** queryAndPage: FindOptions{Limit: &limit, Skip: &skip}, then fill. */
    method QueryAndPage<T>(store: Store, filter: Filter, slice: SliceArg<T>, skip: Int64, limit: Int64,
                           decode: Doc -> Result<T>) returns (err: Option<Error>, ghost cursor: Cursor?)
      requires store.name == collectionName
      modifies store, slice.Footprint()
      ensures store.docs == old(store.docs)
      ensures slice.NotASlicePointer? ==> err == Some(SliceNotPointer) && store.log == old(store.log)
      ensures slice.SlicePointer? ==>
                var o := FindOptions(Some(skip as int), Some(limit as int));
                && store.log == old(store.log) + [Find(filter, o)]
                && slice.slice.items == old(slice.slice.items) + Repository.ReadResult(store.FindResponse(filter, o), decode).0
                && err == Repository.ReadResult(store.FindResponse(filter, o), decode).1
      ensures var o := FindOptions(Some(skip as int), Some(limit as int));
              cursor != null <==> slice.SlicePointer? && store.FindResponse(filter, o).Ok?
      ensures cursor != null ==> cursor.closed
      ensures var o := FindOptions(Some(skip as int), Some(limit as int));
              cursor != null ==> fresh(cursor) && var r := store.FindResponse(filter, o);
                r.Ok? && (cursor.docs, cursor.failure) == r.value
    {
      cursor := null;
      if slice.NotASlicePointer? {
        return Some(SliceNotPointer), null;
      }
      var o := FindOptions(Some(skip as int), Some(limit as int));
      var cur := store.Find(filter, o);
      if cur.Err? {
        return Some(StoreError(cur.message)), null;
      }
      cursor := cur.value;
      err := Fill(slice, cur.value, decode);
      cur.value.Close();
    }

    /** GetOne: Find with limit 1; decode the first document and report
        found; with none, the cursor's error or (false, nil). */
    method GetOne<T>(store: Store, filter: Filter, res: ResArg<T>, decode: Doc -> Result<T>)
      returns (found: bool, err: Option<Error>, ghost cursor: Cursor?)
      requires store.name == collectionName
      modifies store, res.Footprint()
      ensures store.docs == old(store.docs)
      ensures res.NotAResPointer? ==> !found && err == Some(ResNotPointer) && store.log == old(store.log)
      ensures res.ResPointer? ==>
                && store.log == old(store.log) + [Find(filter, LimitOne)]
                && (res.res.value, found, err) == FoundResult(old(res.res.value), store.FindResponse(filter, LimitOne), decode)
      ensures cursor != null <==> res.ResPointer? && store.FindResponse(filter, LimitOne).Ok?
      ensures cursor != null ==> cursor.closed
      ensures cursor != null ==> fresh(cursor) && var r := store.FindResponse(filter, LimitOne);
                r.Ok? && (cursor.docs, cursor.failure) == r.value
    {
      cursor := null;
      if res.NotAResPointer? {
        return false, Some(ResNotPointer), null;
      }
      var cur := store.Find(filter, LimitOne);
      if cur.Err? {
        return false, Some(StoreError(cur.message)), null;
      }
      var c := cur.value;
      cursor := c;
      var more := c.Next();
      if more {
        var v := decode(c.Current());
        if v.Err? {
          c.Close();
          return false, Some(DecodeError(v.message)), cursor;
        }
        res.res.value := v.value;
        c.Close();
        return true, None, cursor;
      }
      var failure := c.Err();
      c.Close();
      if failure.Some? {
        return false, Some(StoreError(failure.value)), cursor;
      }
      found, err := false, None;
    }

    /** GetAll: query with a nil filter. */
    method GetAll<T>(store: Store, slice: SliceArg<T>, decode: Doc -> Result<T>)
      returns (err: Option<Error>, ghost cursor: Cursor?)
      requires store.name == collectionName
      modifies store, slice.Footprint()
      ensures store.docs == old(store.docs)
      ensures slice.NotASlicePointer? ==> err == Some(SliceNotPointer) && store.log == old(store.log)
      ensures slice.SlicePointer? ==>
                && store.log == old(store.log) + [Find(NilFilter, NoOptions)]
                && slice.slice.items == old(slice.slice.items) + Repository.ReadResult(store.FindResponse(NilFilter, NoOptions), decode).0
                && err == Repository.ReadResult(store.FindResponse(NilFilter, NoOptions), decode).1
      ensures cursor != null <==> slice.SlicePointer? && store.FindResponse(NilFilter, NoOptions).Ok?
      ensures cursor != null ==> cursor.closed
      ensures cursor != null ==> fresh(cursor) && var r := store.FindResponse(NilFilter, NoOptions);
                r.Ok? && (cursor.docs, cursor.failure) == r.value
    {
      cursor := null;
      if slice.NotASlicePointer? {
        return Some(SliceNotPointer), null;
      }
      err, cursor := Query(store, NilFilter, slice, decode);
    }

    /** GetAllWithSkipLimit: queryAndPage with a nil filter. */
    method GetAllWithSkipLimit<T>(store: Store, slice: SliceArg<T>, skip: Int64, limit: Int64, decode: Doc -> Result<T>)
      returns (err: Option<Error>, ghost cursor: Cursor?)
      requires store.name == collectionName
      modifies store, slice.Footprint()
      ensures store.docs == old(store.docs)
      ensures slice.NotASlicePointer? ==> err == Some(SliceNotPointer) && store.log == old(store.log)
      ensures slice.SlicePointer? ==>
                var o := FindOptions(Some(skip as int), Some(limit as int));
                && store.log == old(store.log) + [Find(NilFilter, o)]
                && slice.slice.items == old(slice.slice.items) + Repository.ReadResult(store.FindResponse(NilFilter, o), decode).0
                && err == Repository.ReadResult(store.FindResponse(NilFilter, o), decode).1
      ensures var o := FindOptions(Some(skip as int), Some(limit as int));
              cursor != null <==> slice.SlicePointer? && store.FindResponse(NilFilter, o).Ok?
      ensures cursor != null ==> cursor.closed
      ensures var o := FindOptions(Some(skip as int), Some(limit as int));
              cursor != null ==> fresh(cursor) && var r := store.FindResponse(NilFilter, o);
                r.Ok? && (cursor.docs, cursor.failure) == r.value
    {
      err, cursor := QueryAndPage(store, NilFilter, slice, skip, limit, decode);
    }

    /** GetWithSkipLimit: queryAndPage with the caller's filter. */
    method GetWithSkipLimit<T>(store: Store, filter: Filter, slice: SliceArg<T>, skip: Int64, limit: Int64,
                               decode: Doc -> Result<T>) returns (err: Option<Error>, ghost cursor: Cursor?)
      requires store.name == collectionName
      modifies store, slice.Footprint()
      ensures store.docs == old(store.docs)
      ensures slice.NotASlicePointer? ==> err == Some(SliceNotPointer) && store.log == old(store.log)
      ensures slice.SlicePointer? ==>
                var o := FindOptions(Some(skip as int), Some(limit as int));
                && store.log == old(store.log) + [Find(filter, o)]
                && slice.slice.items == old(slice.slice.items) + Repository.ReadResult(store.FindResponse(filter, o), decode).0
                && err == Repository.ReadResult(store.FindResponse(filter, o), decode).1
      ensures var o := FindOptions(Some(skip as int), Some(limit as int));
              cursor != null <==> slice.SlicePointer? && store.FindResponse(filter, o).Ok?
      ensures cursor != null ==> cursor.closed
      ensures var o := FindOptions(Some(skip as int), Some(limit as int));
              cursor != null ==> fresh(cursor) && var r := store.FindResponse(filter, o);
                r.Ok? && (cursor.docs, cursor.failure) == r.value
    {
      err, cursor := QueryAndPage(store, filter, slice, skip, limit, decode);
    }

    /** CountAll: Count with a nil filter; 0 with the error. */
    method CountAll(store: Store) returns (cnt: int, err: Option<Error>)
      requires store.name == collectionName
      modifies store
      ensures store.docs == old(store.docs) && store.log == old(store.log) + [Count(NilFilter)]
      ensures store.CountResponse(NilFilter).Err? ==> cnt == 0 && err == Some(StoreError(store.CountResponse(NilFilter).message))
      ensures store.CountResponse(NilFilter).Ok? ==> cnt == store.CountResponse(NilFilter).value && err == None
    {
      var r := store.CountDocuments(NilFilter);
      if r.Err? {
        return 0, Some(StoreError(r.message));
      }
      cnt, err := r.value, None;
    }

    /** CountWithFilter: Count with the caller's filter. */
    method CountWithFilter(store: Store, filter: Filter) returns (cnt: int, err: Option<Error>)
      requires store.name == collectionName
      modifies store
      ensures store.docs == old(store.docs) && store.log == old(store.log) + [Count(filter)]
      ensures store.CountResponse(filter).Err? ==> cnt == 0 && err == Some(StoreError(store.CountResponse(filter).message))
      ensures store.CountResponse(filter).Ok? ==> cnt == store.CountResponse(filter).value && err == None
    {
      var r := store.CountDocuments(filter);
      if r.Err? {
        return 0, Some(StoreError(r.message));
      }
      cnt, err := r.value, None;
    }

    /** InsertOne: the inserted identifier, or the zero identifier with the
        error. */
    method InsertOne(store: Store, value: Doc, generated: ObjectId) returns (id: ObjectId, err: Option<Error>)
      requires store.name == collectionName
      modifies store
      ensures store.log == old(store.log) + [Insert(value)]
      ensures err.None? <==> store.outage.None? && IndexOfId(old(store.docs), generated).None?
      ensures err.None? ==> id == generated && store.docs == old(store.docs) + [(generated, value)]
      ensures err.Some? ==> id == NilObjectId && store.docs == old(store.docs) && err.value.StoreError?
      ensures UniqueIds(old(store.docs)) ==> UniqueIds(store.docs)
    {
      var r := store.InsertOne(value, generated);
      if r.Err? {
        return NilObjectId, Some(StoreError(r.message));
      }
      id, err := r.value, None;
    }

    /** UpdateOne: FindOneAndUpdate by id with {$set: values}; a nil result
        returns at once; else the single result is decoded. */
    method UpdateOne<T>(store: Store, id: ObjectId, values: map<string, FieldValue>, result: Option<Slot<T>>,
                        decode: Doc -> Result<T>) returns (err: Option<Error>)
      requires store.name == collectionName
      modifies store, if result.Some? then {result.value} else {}
      ensures store.log == old(store.log) + [Request.FindOneAndUpdate(IdIs(id), SetFields(values))]
      ensures var response := old(store.UpdateResponse(id, SetFields(values)));
              var prior := if result.Some? then Some(old(result.value.value)) else None;
              var after := if result.Some? then Some(result.value.value) else None;
              (after, err) == SetResult(prior, response, decode)
      ensures UniqueIds(old(store.docs)) ==> UniqueIds(store.docs)
      ensures old(store.UpdateResponse(id, SetFields(values))).Err? ==> store.docs == old(store.docs)
      ensures old(store.UpdateResponse(id, SetFields(values))).Ok? ==>
                && IndexOfId(old(store.docs), id).Some?
                && var k := IndexOfId(old(store.docs), id).value;
                   store.docs == old(store.docs)[k := (id, store.apply(SetFields(values), old(store.docs)[k].1).value)]
    {
      var doc := store.FindOneAndUpdate(id, SetFields(values));
      if result.None? {
        return None;
      }
      if doc.Err? {
        return Some(StoreError(doc.message));
      }
      var v := decode(doc.value);
      if v.Err? {
        return Some(DecodeError(v.message));
      }
      result.value.value := v.value;
      err := None;
    }

    /** DeleteOne: the store's error, if any. */
    method DeleteOne(store: Store, id: ObjectId) returns (err: Option<Error>)
      requires store.name == collectionName
      modifies store
      ensures store.log == old(store.log) + [Delete(IdIs(id))]
      ensures err == Repository.Wrap(store.outage)
      ensures err.None? && IndexOfId(old(store.docs), id).Some? ==>
                var k := IndexOfId(old(store.docs), id).value;
                store.docs == old(store.docs)[..k] + old(store.docs)[k + 1..]
      ensures err.Some? || IndexOfId(old(store.docs), id).None? ==> store.docs == old(store.docs)
    {
      var e := store.DeleteOne(id);
      err := Repository.Wrap(e);
    }
  }

  /** NewServiceBase: a service over the named collection. */
  function NewServiceBase(collectionName: string): (r: ServiceBase)
    ensures r.collectionName == collectionName
  {
    ServiceBase(collectionName)
  }
}
