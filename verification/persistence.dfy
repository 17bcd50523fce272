/** The session over the four tables, held in memory: each table is a map
    from its primary key to its row, and each table's id sequence is a
    counter. `StoreResults` and `RestoreResults` model `store_results` and
    `restore_results`; the delete methods model what the declared cascades
    do. */
module Persistence {
  import opened Outcomes
  import opened Codec
  import opened Schema

  class Session {
    /** `stemp_oemof_input_result`, keyed by `input_result_id`. */
    var pairs: map<nat, PairRow>
    /** `stemp_oemof_data`: the `data_id`s of the bundles. */
    var bundles: set<nat>
    /** `stemp_oemof_scalar`, keyed by `scalar_id`. */
    var scalarRows: map<nat, ScalarRow>
    /** `stemp_oemof_sequence`, keyed by `sequence_id`. */
    var sequenceRows: map<nat, SequenceRow>
    /** The next value of each table's id sequence (ids start at 1). */
    var nextPairId: nat
    var nextDataId: nat
    var nextScalarId: nat
    var nextSequenceId: nat

    /** Ids are below their counters, every row and every pair reference
        points to an existing bundle, a bundle holds at most one row per key
        and attribute, and a bundle is owned by at most one pair role. */
    ghost predicate Valid()
      reads this
    {
      && 0 < nextPairId && 0 < nextDataId && 0 < nextScalarId && 0 < nextSequenceId
      && PairTableOk(pairs, bundles, nextPairId)
      && BundleTableOk(bundles, nextDataId)
      && ScalarTableOk(scalarRows, bundles, nextScalarId)
      && SequenceTableOk(sequenceRows, bundles, nextSequenceId)
    }

    /** An empty database. */
    constructor ()
      ensures Valid()
      ensures pairs == map[] && bundles == {} && scalarRows == map[] && sequenceRows == map[]
      ensures nextPairId == 1 && nextDataId == 1 && nextScalarId == 1 && nextSequenceId == 1
    {
      pairs, bundles, scalarRows, sequenceRows := map[], {}, map[], map[];
      nextPairId, nextDataId, nextScalarId, nextSequenceId := 1, 1, 1, 1;
    }

    /** Pair `id` links two bundles holding exactly the rows written for
        `inputData` and `resultData`. */
    ghost predicate Holds(id: nat, inputData: Data, resultData: Data)
      reads this
    {
      && id in pairs && pairs[id].inputId.Some? && pairs[id].resultId.Some?
      && BundleEncodes(scalarRows, sequenceRows, pairs[id].inputId.value, inputData)
      && BundleEncodes(scalarRows, sequenceRows, pairs[id].resultId.value, resultData)
    }

    /** The scalar rows of bundle `d` for the attributes of key `e` of
        `data`: one `OemofScalar` per attribute, carrying the key's labels,
        the attribute name, the value's text and its type name. Written
        after the keys `done`, they extend what the bundle encodes by `e`. */
    method AddScalarRows(d: nat, data: Data, e: Edge, ghost done: set<Edge>)
      requires Valid() && d in bundles && e in data && e !in done
      requires ScalarRowsEncodeOn(scalarRows, d, data, done)
      modifies this`scalarRows, this`nextScalarId
      ensures Valid()
      ensures forall i :: i in old(scalarRows) ==> i in scalarRows && scalarRows[i] == old(scalarRows)[i]
      ensures forall i :: i in scalarRows && i !in old(scalarRows) ==> scalarRows[i].dataId == d
      ensures ScalarRowsEncodeOn(scalarRows, d, data, done + {e})
    {
      var scalars := data[e].scalars;
      var rows, next := scalarRows, nextScalarId;
      ScalarsWrittenStart(rows, bundles, next, d, data, e, done);
      var todo := scalars.Keys;
      ghost var written: set<string> := {};
      while todo != {}
        invariant todo !! written && todo + written == scalars.Keys
        invariant ScalarsWritten(old(scalarRows), rows, bundles, next, d, data, e, written)
        decreases todo
      {
        var a :| a in todo;
        ScalarsWrittenStep(old(scalarRows), rows, bundles, next, d, data, e, written, a);
        rows := rows[next := EncodeScalar(d, e, a, scalars[a])];
        next := next + 1;
        todo := todo - {a};
        written := written + {a};
      }
      ScalarsWrittenEnd(old(scalarRows), rows, bundles, next, d, data, e, done);
      scalarRows, nextScalarId := rows, next;
    }

    /** The sequence rows of bundle `d` for the sequences of key `e` of
        `data`: one `OemofSequence` per attribute, holding the value list
        and the representation tag. */
    method AddSequenceRows(d: nat, data: Data, e: Edge, ghost done: set<Edge>)
      requires Valid() && d in bundles && e in data && e !in done
      requires SequenceRowsEncodeOn(sequenceRows, d, data, done)
      modifies this`sequenceRows, this`nextSequenceId
      ensures Valid()
      ensures forall j :: j in old(sequenceRows) ==> j in sequenceRows && sequenceRows[j] == old(sequenceRows)[j]
      ensures forall j :: j in sequenceRows && j !in old(sequenceRows) ==> sequenceRows[j].dataId == d
      ensures SequenceRowsEncodeOn(sequenceRows, d, data, done + {e})
    {
      var sequences := data[e].sequences;
      var rows, next := sequenceRows, nextSequenceId;
      SequencesWrittenStart(rows, bundles, next, d, data, e, done);
      var todo := sequences.Keys;
      ghost var written: set<string> := {};
      while todo != {}
        invariant todo !! written && todo + written == sequences.Keys
        invariant SequencesWritten(old(sequenceRows), rows, bundles, next, d, data, e, written)
        decreases todo
      {
        var a :| a in todo;
        var (values, listType) := Normalize(sequences[a]);
        var row := SequenceRow(d, e, a, values, listType);
        assert row == EncodeSequence(d, e, a, sequences[a]);
        SequencesWrittenStep(old(sequenceRows), rows, bundles, next, d, data, e, written, a);
        rows := rows[next := row];
        next := next + 1;
        todo := todo - {a};
        written := written + {a};
      }
      SequencesWrittenEnd(old(sequenceRows), rows, bundles, next, d, data, e, done);
      sequenceRows, nextSequenceId := rows, next;
    }

    /** The rows of bundle `d` for key `e` of `data`: its scalars, then its
        sequences. Written after the keys `done`, they extend what the
        bundle encodes by `e`. */
    method StoreEntry(d: nat, data: Data, e: Edge, ghost done: set<Edge>)
      requires Valid() && d in bundles && e in data && e !in done
      requires ScalarRowsEncodeOn(scalarRows, d, data, done) && SequenceRowsEncodeOn(sequenceRows, d, data, done)
      modifies this`scalarRows, this`nextScalarId, this`sequenceRows, this`nextSequenceId
      ensures Valid()
      ensures forall i :: i in old(scalarRows) ==> i in scalarRows && scalarRows[i] == old(scalarRows)[i]
      ensures forall j :: j in old(sequenceRows) ==> j in sequenceRows && sequenceRows[j] == old(sequenceRows)[j]
      ensures forall i :: i in scalarRows && i !in old(scalarRows) ==> scalarRows[i].dataId == d
      ensures forall j :: j in sequenceRows && j !in old(sequenceRows) ==> sequenceRows[j].dataId == d
      ensures ScalarRowsEncodeOn(scalarRows, d, data, done + {e})
      ensures SequenceRowsEncodeOn(sequenceRows, d, data, done + {e})
    {
      AddScalarRows(d, data, e, done);
      AddSequenceRows(d, data, e, done);
    }

    /** The rows of every key of `data`, written into bundle `d`, which owns
        no row yet: afterwards `d` encodes `data` and owns every new row. */
    method StoreEntries(d: nat, data: Data)
      requires Valid() && d in bundles
      requires forall i :: i in scalarRows ==> scalarRows[i].dataId != d
      requires forall j :: j in sequenceRows ==> sequenceRows[j].dataId != d
      modifies this`scalarRows, this`nextScalarId, this`sequenceRows, this`nextSequenceId
      ensures Valid()
      ensures BundleWritten(old(scalarRows), scalarRows, old(sequenceRows), sequenceRows, d, data, data.Keys)
    {
      BundleWrittenStart(scalarRows, sequenceRows, d, data);
      var todo := data.Keys;
      ghost var done: set<Edge> := {};
      while todo != {}
        invariant Valid()
        invariant todo !! done && todo + done == data.Keys
        invariant BundleWritten(old(scalarRows), scalarRows, old(sequenceRows), sequenceRows, d, data, done)
        decreases todo
      {
        var e :| e in todo;
        ghost var S1, Q1 := scalarRows, sequenceRows;
        StoreEntry(d, data, e, done);
        BundleWrittenStep(old(scalarRows), S1, scalarRows, old(sequenceRows), Q1, sequenceRows, d, data, done, e);
        todo := todo - {e};
        done := done + {e};
      }
    }

    /** One role of `store_results`: a fresh bundle whose rows are exactly
        those written for `data`, and for no other mapping. */
    method StoreBundle(data: Data) returns (d: nat)
      requires Valid()
      modifies this`bundles, this`nextDataId, this`scalarRows, this`nextScalarId, this`sequenceRows, this`nextSequenceId
      ensures Valid()
      ensures d == old(nextDataId) && d !in old(bundles) && bundles == old(bundles) + {d}
      ensures forall i :: i in old(scalarRows) ==> i in scalarRows && scalarRows[i] == old(scalarRows)[i]
      ensures forall j :: j in old(sequenceRows) ==> j in sequenceRows && sequenceRows[j] == old(sequenceRows)[j]
      ensures forall i :: i in scalarRows && i !in old(scalarRows) ==> scalarRows[i].dataId == d
      ensures forall j :: j in sequenceRows && j !in old(sequenceRows) ==> sequenceRows[j].dataId == d
      ensures BundleEncodes(scalarRows, sequenceRows, d, data)
    {
      d := nextDataId;
      nextDataId := nextDataId + 1;
      bundles := bundles + {d};
      StoreEntries(d, data);
    }

    /** `store_results`: write both mappings, each into its own bundle, link
        the two bundles under one new pair and return the pair's id. An
        empty mapping raises StopIteration before anything is written. */
    method StoreResults(inputData: Data, resultData: Data) returns (r: Result<nat>)
      requires Valid()
      modifies this
      ensures Valid()
      ensures r.Err? <==> |inputData| == 0 || |resultData| == 0
      ensures r.Err? ==> r.error == StopIteration && unchanged(this)
      ensures r.Ok? ==> r.value == old(nextPairId) && r.value !in old(pairs)
      ensures r.Ok? ==> Holds(r.value, inputData, resultData)
      ensures r.Ok? ==> pairs.Keys == old(pairs).Keys + {r.value}
                        && forall p :: p in old(pairs) ==> pairs[p] == old(pairs)[p]
      ensures r.Ok? ==> pairs[r.value].inputId.value !in old(bundles) && pairs[r.value].resultId.value !in old(bundles)
                        && bundles == old(bundles) + {pairs[r.value].inputId.value, pairs[r.value].resultId.value}
      ensures forall i :: i in old(scalarRows) ==> i in scalarRows && scalarRows[i] == old(scalarRows)[i]
      ensures forall j :: j in old(sequenceRows) ==> j in sequenceRows && sequenceRows[j] == old(sequenceRows)[j]
      ensures r.Ok? ==> forall i :: i in scalarRows && i !in old(scalarRows) ==>
                          scalarRows[i].dataId in {pairs[r.value].inputId.value, pairs[r.value].resultId.value}
      ensures r.Ok? ==> forall j :: j in sequenceRows && j !in old(sequenceRows) ==>
                          sequenceRows[j].dataId in {pairs[r.value].inputId.value, pairs[r.value].resultId.value}
    {
      if |inputData| == 0 || |resultData| == 0 {
        return Err(StopIteration);
      }
      var inputId := StoreBundle(inputData);
      ghost var S1, Q1 := scalarRows, sequenceRows;
      var resultId := StoreBundle(resultData);
      KeepEncodes(S1, scalarRows, Q1, sequenceRows, inputId, inputData);
      var id := nextPairId;
      AddPairOk(pairs, old(bundles), id, old(nextDataId), inputId, resultId);
      pairs := pairs[id := PairRow(Some(inputId), Some(resultId))];
      nextPairId := nextPairId + 1;
      r := Ok(id);
    }

    /** The mapping bundle `d` regroups into. */
    ghost function View(d: nat): Data
      reads this
      requires ScalarsDecode(scalarRows, ScalarIds(scalarRows, d))
    {
      Regroup(scalarRows, ScalarIds(scalarRows, d), sequenceRows, SequenceIds(sequenceRows, d))
    }

    /** Restore succeeds on pair `id`. */
    ghost predicate Restorable(id: int)
      reads this
    {
      && id in pairs && pairs[id].inputId.Some? && pairs[id].resultId.Some?
      && ScalarsDecode(scalarRows, ScalarIds(scalarRows, pairs[id].inputId.value))
      && ScalarsDecode(scalarRows, ScalarIds(scalarRows, pairs[id].resultId.value))
    }

    /** One role of `restore_results`: group the rows of bundle `d` by key,
        creating each key with two empty sub-maps on first sight, decoding
        scalars and rebuilding sequences; the first scalar that does not
        decode aborts with its error. */
    method RestoreBundle(d: nat) returns (r: Result<Data>)
      requires Valid()
      ensures r.Ok? <==> ScalarsDecode(scalarRows, ScalarIds(scalarRows, d))
      ensures r.Ok? ==> r.value == View(d)
      ensures r.Err? ==> exists i :: i in ScalarIds(scalarRows, d) && DecodeRow(scalarRows[i]) == Err(r.error)
      ensures r.Err? ==> r.error.TypeError? || r.error.ValueError?
    {
      var scalarIds := ScalarIds(scalarRows, d);
      var sequenceIds := SequenceIds(sequenceRows, d);
      var scalarOrder := ListRows(scalarIds);
      var sequenceOrder := ListRows(sequenceIds);
      UniqueWithinBundle(scalarRows, sequenceRows, d, scalarIds, sequenceIds);
      GroupScalarRowsMeaning(scalarRows, sequenceRows, scalarOrder);
      var grouped := GroupScalars(scalarRows, scalarOrder);
      if grouped.Err? {
        var k :| 0 <= k < |scalarOrder| && DecodeRow(scalarRows[scalarOrder[k]]) == Err(grouped.error);
        assert scalarOrder[k] in scalarIds;
        DecodeErrors(scalarRows[scalarOrder[k]].text, scalarRows[scalarOrder[k]].typeTag);
        return Err(grouped.error);
      }
      GroupSequenceRowsMeaning(scalarRows, scalarIds, sequenceRows, sequenceOrder);
      var data := GroupSequences(sequenceRows, sequenceOrder, grouped.value);
      r := Ok(data);
    }

    /** `restore_results`: look the pair up by id (IndexError if absent),
        then rebuild the input mapping and the result mapping from their
        bundles. */
    method RestoreResults(id: int) returns (r: Result<(Data, Data)>)
      requires Valid()
      ensures id !in pairs ==> r == Err(IndexError(id))
      ensures id in pairs && pairs[id].inputId.None? ==> r == Err(AttributeError)
      ensures r.Ok? <==> Restorable(id)
      ensures r.Ok? ==> r.value == (View(pairs[id].inputId.value), View(pairs[id].resultId.value))
      ensures r.Err? && id in pairs ==>
                || r.error == AttributeError
                || (exists d, i :: d in {pairs[id].inputId, pairs[id].resultId} && d.Some?
                      && i in ScalarIds(scalarRows, d.value) && DecodeRow(scalarRows[i]) == Err(r.error))
      ensures r.Err? ==>
                r.error == IndexError(id) || r.error == AttributeError || r.error.TypeError? || r.error.ValueError?
      ensures id in pairs && pairs[id].inputId.Some? && pairs[id].resultId.Some? && r.Err? ==>
                r.error.TypeError? || r.error.ValueError?
      // The input bundle is restored first: its decode error wins over
      // anything the result bundle would raise.
      ensures id in pairs && pairs[id].inputId.Some?
              && !ScalarsDecode(scalarRows, ScalarIds(scalarRows, pairs[id].inputId.value)) ==>
                r.Err? && exists i :: i in ScalarIds(scalarRows, pairs[id].inputId.value)
                                      && DecodeRow(scalarRows[i]) == Err(r.error)
      ensures id in pairs && pairs[id].inputId.Some? && pairs[id].resultId.None?
              && ScalarsDecode(scalarRows, ScalarIds(scalarRows, pairs[id].inputId.value)) ==>
                r == Err(AttributeError)
    {
      if id !in pairs {
        return Err(IndexError(id));
      }
      var inputResult := pairs[id];
      if inputResult.inputId.None? {
        return Err(AttributeError);
      }
      var inputData := RestoreBundle(inputResult.inputId.value);
      if inputData.Err? {
        return Err(inputData.error);
      }
      if inputResult.resultId.None? {
        return Err(AttributeError);
      }
      var resultData := RestoreBundle(inputResult.resultId.value);
      if resultData.Err? {
        return Err(resultData.error);
      }
      r := Ok((inputData.value, resultData.value));
    }

    /** A pair written for `inputData` and `resultData` restores exactly when
        every scalar of both mappings decodes, and then restores to their
        reloaded forms. */
    lemma StoredRestores(id: nat, inputData: Data, resultData: Data)
      requires Holds(id, inputData, resultData)
      ensures Restorable(id) <==> AllDecodable(inputData) && AllDecodable(resultData)
      ensures Restorable(id) ==>
                && View(pairs[id].inputId.value) == Reloaded(inputData)
                && View(pairs[id].resultId.value) == Reloaded(resultData)
    {
      BundleRoundTrip(scalarRows, sequenceRows, pairs[id].inputId.value, inputData);
      BundleRoundTrip(scalarRows, sequenceRows, pairs[id].resultId.value, resultData);
    }

    /** A decode error raised by a row of a pair written for `inputData` and
        `resultData` is the error of a scalar of one of the two mappings. */
    lemma FailureOrigin(id: nat, inputData: Data, resultData: Data, err: Error)
      requires Holds(id, inputData, resultData)
      requires || err == AttributeError
               || (exists d, i :: d in {pairs[id].inputId, pairs[id].resultId} && d.Some?
                     && i in ScalarIds(scalarRows, d.value) && DecodeRow(scalarRows[i]) == Err(err))
      requires err.TypeError? || err.ValueError?
      ensures FailsWith(inputData, err) || FailsWith(resultData, err)
    {
      var d, i :| d in {pairs[id].inputId, pairs[id].resultId} && d.Some?
                  && i in ScalarIds(scalarRows, d.value) && DecodeRow(scalarRows[i]) == Err(err);
      if d == pairs[id].inputId {
        RowFails(scalarRows, sequenceRows, d.value, inputData, i);
      } else {
        RowFails(scalarRows, sequenceRows, d.value, resultData, i);
      }
    }

    /** The round trip a caller makes: store two mappings, then restore the
        returned id. It fails only on an empty mapping or on a scalar that
        does not decode, and otherwise gives both mappings back reloaded. */
    method StoreThenRestore(inputData: Data, resultData: Data) returns (r: Result<(Data, Data)>)
      requires Valid()
      modifies this
      ensures Valid()
      ensures |inputData| == 0 || |resultData| == 0 ==> r == Err(StopIteration)
      ensures r == Err(StopIteration) ==> |inputData| == 0 || |resultData| == 0
      ensures |inputData| > 0 && |resultData| > 0 && r.Err? ==> r.error.TypeError? || r.error.ValueError?
      ensures |inputData| > 0 && |resultData| > 0 && r.Err? ==>
                FailsWith(inputData, r.error) || FailsWith(resultData, r.error)
      ensures |inputData| > 0 && |resultData| > 0 ==>
                (r.Ok? <==> AllDecodable(inputData) && AllDecodable(resultData))
      ensures r.Ok? ==>
                && AllDecodable(inputData) && AllDecodable(resultData)
                && r.value == (Reloaded(inputData), Reloaded(resultData))
      ensures |inputData| > 0 && |resultData| > 0 && Lossless(inputData) && Lossless(resultData) ==>
                r == Ok((inputData, resultData))
    {
      var stored := StoreResults(inputData, resultData);
      if stored.Err? {
        return Err(stored.error);
      }
      var id := stored.value;
      assert id in pairs && pairs[id].inputId.Some? && pairs[id].resultId.Some?;
      StoredRestores(id, inputData, resultData);
      r := RestoreResults(id);
      if r.Err? {
        FailureOrigin(id, inputData, resultData, r.error);
      }
      if Lossless(inputData) && Lossless(resultData) {
        LosslessRoundTrip(inputData);
        LosslessRoundTrip(resultData);
      }
    }

    /** Deleting a bundle deletes all of its scalar and sequence rows
        (`cascade="delete"`) and nulls the pair reference that pointed to it. */
    method DeleteData(d: nat)
      requires Valid() && d in bundles
      modifies this`pairs, this`bundles, this`scalarRows, this`sequenceRows
      ensures Valid()
      ensures bundles == old(bundles) - {d}
      ensures scalarRows == DropScalars(old(scalarRows), d)
      ensures sequenceRows == DropSequences(old(sequenceRows), d)
      ensures pairs == UnlinkAll(old(pairs), d)
    {
      DeleteRowsOk(scalarRows, sequenceRows, bundles, nextScalarId, nextSequenceId, d);
      UnlinkOk(pairs, bundles, nextPairId, d);
      scalarRows := DropScalars(scalarRows, d);
      sequenceRows := DropSequences(sequenceRows, d);
      pairs := UnlinkAll(pairs, d);
      bundles := bundles - {d};
    }

    /** Deleting a pair leaves its bundles and their rows in place: its
        relationships declare no cascade. */
    method DeletePair(id: nat)
      requires Valid() && id in pairs
      modifies this`pairs
      ensures Valid()
      ensures pairs == old(pairs) - {id}
    {
      pairs := pairs - {id};
    }
  }

  /** The rows of a bundle as its relationship lists them: every id once,
      in an order the model leaves open. */
  method ListRows(ids: set<nat>) returns (order: seq<nat>)
    ensures Distinct(order) && Elements(order) == ids
    ensures forall i :: i in order <==> i in ids
  {
    order := [];
    var todo := ids;
    while todo != {}
      invariant Distinct(order) && todo !! Elements(order) && todo + Elements(order) == ids
      decreases todo
    {
      var i :| i in todo;
      assert Elements(order + [i]) == Elements(order) + {i};
      order := order + [i];
      todo := todo - {i};
    }
  }

  /** The scalar loop of `restore_results`: decode each row in turn and store
      it under its key and attribute, creating the key with two empty
      sub-maps on first sight; a row that does not decode raises its error. */
  method GroupScalars(S: map<nat, ScalarRow>, order: seq<nat>) returns (r: Result<Data>)
    requires forall i :: i in order ==> i in S
    ensures r == GroupScalarRows(S, order)
  {
    var data: Data := map[];
    var k := 0;
    while k < |order|
      invariant k <= |order| && GroupScalarRows(S, order[..k]) == Ok(data)
    {
      var scalar := S[order[k]];
      var value := TypeConversion(scalar.text, scalar.typeTag);
      assert order[..k + 1][..k] == order[..k];
      if value.Err? {
        GroupScalarRowsStops(S, order, k + 1);
        return Err(value.error);
      }
      var nodes := scalar.edge;
      var entry := if nodes in data then data[nodes] else Entry(map[], map[]);
      data := data[nodes := entry.(scalars := entry.scalars[scalar.attribute := value.value])];
      k := k + 1;
    }
    assert order[..k] == order;
    r := Ok(data);
  }

  /** The sequence loop of `restore_results`: each row becomes a series or
      stays a list and is stored under its key and attribute, on top of the
      mapping `data0` the scalar loop built. */
  method GroupSequences(Q: map<nat, SequenceRow>, order: seq<nat>, data0: Data) returns (data: Data)
    requires forall j :: j in order ==> j in Q
    ensures data == GroupSequenceRows(Q, order, data0)
  {
    data := data0;
    var k := 0;
    while k < |order|
      invariant k <= |order| && GroupSequenceRows(Q, order[..k], data0) == data
    {
      var sequence := Q[order[k]];
      var nodes := sequence.edge;
      var entry := if nodes in data then data[nodes] else Entry(map[], map[]);
      var series := Denormalize(sequence.values, sequence.typeTag);
      assert order[..k + 1][..k] == order[..k];
      data := data[nodes := entry.(sequences := entry.sequences[sequence.attribute := series])];
      k := k + 1;
    }
    assert order[..k] == order;
  }
}
