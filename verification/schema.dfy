/** The four linked record kinds (input/result pair, data bundle, scalar row,
    sequence row), the nested mapping the persistence layer accepts and
    returns, and the two views that relate them: which rows a bundle must
    hold to encode a mapping, and which mapping restore rebuilds from rows. */
module Schema {
  import opened Outcomes
  import opened Codec

  /** A `(from_node, to_node)` key, both labels already strings. */
  datatype Edge = Edge(fromNode: string, toNode: string)

  /** `{"scalars": {...}, "sequences": {...}}` under one key. */
  datatype Entry = Entry(scalars: map<string, Value>, sequences: map<string, SeqValue>)

  /** An input or result mapping. */
  type Data = map<Edge, Entry>

  /** An `OemofInputResult` row: the ids of its input and result bundles
      (`None` once the bundle it pointed to was deleted). */
  datatype PairRow = PairRow(inputId: Option<nat>, resultId: Option<nat>)

  /** An `OemofScalar` row. */
  datatype ScalarRow = ScalarRow(dataId: nat, edge: Edge, attribute: string, text: string, typeTag: string)

  /** An `OemofSequence` row. */
  datatype SequenceRow = SequenceRow(dataId: nat, edge: Edge, attribute: string, values: seq<real>, typeTag: string)

  /** The row `store_results` builds for one scalar attribute. */
  function EncodeScalar(d: nat, e: Edge, a: string, v: Value): ScalarRow
  {
    ScalarRow(d, e, a, Text(v), TypeTag(v))
  }

  /** The row `store_results` builds for one sequence attribute. */
  function EncodeSequence(d: nat, e: Edge, a: string, s: SeqValue): SequenceRow
  {
    var (vs, tag) := Normalize(s);
    SequenceRow(d, e, a, vs, tag)
  }

  /** Ids of the scalar rows owned by bundle `d`. */
  function ScalarIds(S: map<nat, ScalarRow>, d: nat): set<nat>
  {
    set i | i in S && S[i].dataId == d
  }

  /** Ids of the sequence rows owned by bundle `d`. */
  function SequenceIds(Q: map<nat, SequenceRow>, d: nat): set<nat>
  {
    set j | j in Q && Q[j].dataId == d
  }

  // ---------------------------------------------------------------------
  // Store side

  /** No bundle holds two scalar rows for the same key and attribute. */
  ghost predicate ScalarKeysUnique(S: map<nat, ScalarRow>)
  {
    forall i, j ::
      i in S && j in S && S[i].dataId == S[j].dataId && S[i].edge == S[j].edge && S[i].attribute == S[j].attribute
      ==> i == j
  }

  /** No bundle holds two sequence rows for the same key and attribute. */
  ghost predicate SequenceKeysUnique(Q: map<nat, SequenceRow>)
  {
    forall i, j ::
      i in Q && j in Q && Q[i].dataId == Q[j].dataId && Q[i].edge == Q[j].edge && Q[i].attribute == Q[j].attribute
      ==> i == j
  }

  /** The scalar rows of bundle `d` are exactly the encoded scalars of the
      keys `done` of `data`: every row encodes one of them, and each of them
      has a row. */
  ghost predicate ScalarRowsEncodeOn(S: map<nat, ScalarRow>, d: nat, data: Data, done: set<Edge>)
  {
    && (forall i :: i in S && S[i].dataId == d ==>
          && S[i].edge in done && S[i].edge in data
          && S[i].attribute in data[S[i].edge].scalars
          && S[i] == EncodeScalar(d, S[i].edge, S[i].attribute, data[S[i].edge].scalars[S[i].attribute]))
    && (forall e, a :: e in done && e in data && a in data[e].scalars ==>
          exists i :: i in S && S[i] == EncodeScalar(d, e, a, data[e].scalars[a]))
  }

  /** Likewise for sequence rows. */
  ghost predicate SequenceRowsEncodeOn(Q: map<nat, SequenceRow>, d: nat, data: Data, done: set<Edge>)
  {
    && (forall j :: j in Q && Q[j].dataId == d ==>
          && Q[j].edge in done && Q[j].edge in data
          && Q[j].attribute in data[Q[j].edge].sequences
          && Q[j] == EncodeSequence(d, Q[j].edge, Q[j].attribute, data[Q[j].edge].sequences[Q[j].attribute]))
    && (forall e, a :: e in done && e in data && a in data[e].sequences ==>
          exists j :: j in Q && Q[j] == EncodeSequence(d, e, a, data[e].sequences[a]))
  }

  /** Bundle `d` holds exactly the rows `store_results` writes for `data`. */
  ghost predicate BundleEncodes(S: map<nat, ScalarRow>, Q: map<nat, SequenceRow>, d: nat, data: Data)
  {
    ScalarRowsEncodeOn(S, d, data, data.Keys) && SequenceRowsEncodeOn(Q, d, data, data.Keys)
  }

  // ---------------------------------------------------------------------
  // Restore side

  /** Within the ids `D`, no two scalar rows share key and attribute. */
  ghost predicate ScalarsUniqueOn(S: map<nat, ScalarRow>, D: set<nat>)
  {
    forall i, j ::
      i in D && j in D && i in S && j in S && S[i].edge == S[j].edge && S[i].attribute == S[j].attribute
      ==> i == j
  }

  /** Within the ids `D`, no two sequence rows share key and attribute. */
  ghost predicate SequencesUniqueOn(Q: map<nat, SequenceRow>, D: set<nat>)
  {
    forall i, j ::
      i in D && j in D && i in Q && j in Q && Q[i].edge == Q[j].edge && Q[i].attribute == Q[j].attribute
      ==> i == j
  }

  /** `type_conversion` applied to one stored scalar row. */
  function DecodeRow(r: ScalarRow): Result<Value>
  {
    TypeConversion(r.text, r.typeTag)
  }

  /** Every scalar row among the ids `D` decodes without error. */
  ghost predicate ScalarsDecode(S: map<nat, ScalarRow>, D: set<nat>)
  {
    forall i :: i in D && i in S ==> DecodeRow(S[i]).Ok?
  }

  /** The conditions under which the rows `DS`, `DQ` regroup into a mapping. */
  ghost predicate Regroupable(S: map<nat, ScalarRow>, DS: set<nat>, Q: map<nat, SequenceRow>, DQ: set<nat>)
  {
    DS <= S.Keys && DQ <= Q.Keys && ScalarsDecode(S, DS)
  }

  /** The keys that occur in the scalar rows `D`. */
  function ScalarEdges(S: map<nat, ScalarRow>, D: set<nat>): set<Edge>
    requires D <= S.Keys
  {
    set i | i in D :: S[i].edge
  }

  /** The keys that occur in the sequence rows `D`. */
  function SequenceEdges(Q: map<nat, SequenceRow>, D: set<nat>): set<Edge>
    requires D <= Q.Keys
  {
    set j | j in D :: Q[j].edge
  }

  /** The attribute names the scalar rows `D` carry under key `e`. */
  function ScalarAttrs(S: map<nat, ScalarRow>, D: set<nat>, e: Edge): set<string>
    requires D <= S.Keys
  {
    set i | i in D && S[i].edge == e :: S[i].attribute
  }

  /** The attribute names the sequence rows `D` carry under key `e`. */
  function SequenceAttrs(Q: map<nat, SequenceRow>, D: set<nat>, e: Edge): set<string>
    requires D <= Q.Keys
  {
    set j | j in D && Q[j].edge == e :: Q[j].attribute
  }

  /** A scalar row among `D` for key `e` and attribute `a`. */
  ghost function ScalarRowFor(S: map<nat, ScalarRow>, D: set<nat>, e: Edge, a: string): (k: nat)
    requires D <= S.Keys && a in ScalarAttrs(S, D, e)
    ensures k in D && S[k].edge == e && S[k].attribute == a
  {
    var k :| k in D && S[k].edge == e && S[k].attribute == a; k
  }

  /** A sequence row among `D` for key `e` and attribute `a`. */
  ghost function SequenceRowFor(Q: map<nat, SequenceRow>, D: set<nat>, e: Edge, a: string): (k: nat)
    requires D <= Q.Keys && a in SequenceAttrs(Q, D, e)
    ensures k in D && Q[k].edge == e && Q[k].attribute == a
  {
    var k :| k in D && Q[k].edge == e && Q[k].attribute == a; k
  }

  /** The decoded scalars the rows `D` give key `e`. */
  ghost function ScalarsAt(S: map<nat, ScalarRow>, D: set<nat>, e: Edge): map<string, Value>
    requires D <= S.Keys && ScalarsDecode(S, D)
  {
    map a | a in ScalarAttrs(S, D, e) :: DecodeRow(S[ScalarRowFor(S, D, e, a)]).value
  }

  /** The rebuilt sequences the rows `D` give key `e`. */
  ghost function SequencesAt(Q: map<nat, SequenceRow>, D: set<nat>, e: Edge): map<string, SeqValue>
    requires D <= Q.Keys
  {
    map a | a in SequenceAttrs(Q, D, e) ::
      var k := SequenceRowFor(Q, D, e, a); Denormalize(Q[k].values, Q[k].typeTag)
  }

  /** The mapping `restore_results` rebuilds from the rows `DS` and `DQ`: one
      entry per key occurring in them, each with both sub-maps. */
  ghost function Regroup(S: map<nat, ScalarRow>, DS: set<nat>, Q: map<nat, SequenceRow>, DQ: set<nat>): Data
    requires Regroupable(S, DS, Q, DQ)
  {
    map e | e in ScalarEdges(S, DS) + SequenceEdges(Q, DQ) :: Entry(ScalarsAt(S, DS, e), SequencesAt(Q, DQ, e))
  }

  /** The shape of a restored mapping: one key per distinct key among the
      rows, and a key that has rows of only one kind gets an empty map for
      the other kind. */
  lemma RegroupShape(S: map<nat, ScalarRow>, DS: set<nat>, Q: map<nat, SequenceRow>, DQ: set<nat>)
    requires Regroupable(S, DS, Q, DQ)
    ensures Regroup(S, DS, Q, DQ).Keys == ScalarEdges(S, DS) + SequenceEdges(Q, DQ)
    ensures forall e :: e in Regroup(S, DS, Q, DQ) && e !in ScalarEdges(S, DS) ==>
              Regroup(S, DS, Q, DQ)[e].scalars == map[]
    ensures forall e :: e in Regroup(S, DS, Q, DQ) && e !in SequenceEdges(Q, DQ) ==>
              Regroup(S, DS, Q, DQ)[e].sequences == map[]
  {
    forall e, a | a in ScalarAttrs(S, DS, e) ensures e in ScalarEdges(S, DS) {
      var k := ScalarRowFor(S, DS, e, a);
    }
    forall e, a | a in SequenceAttrs(Q, DQ, e) ensures e in SequenceEdges(Q, DQ) {
      var k := SequenceRowFor(Q, DQ, e, a);
    }
  }

  /** One step of the scalar loop of `restore_results`: create the key with
      two empty sub-maps on first sight, then set the attribute. */
  function InsertScalar(data: Data, e: Edge, a: string, v: Value): Data
  {
    var en := if e in data then data[e] else Entry(map[], map[]);
    data[e := en.(scalars := en.scalars[a := v])]
  }

  /** One step of the sequence loop of `restore_results`. */
  function InsertSequence(data: Data, e: Edge, a: string, s: SeqValue): Data
  {
    var en := if e in data then data[e] else Entry(map[], map[]);
    data[e := en.(sequences := en.sequences[a := s])]
  }

  /** Adding row `i` to the rows `D` adds its decoded value under its own
      key and attribute. */
  lemma ScalarsAtAdd(S: map<nat, ScalarRow>, D: set<nat>, i: nat)
    requires D + {i} <= S.Keys && i !in D && ScalarsUniqueOn(S, D + {i}) && ScalarsDecode(S, D + {i})
    ensures ScalarsAt(S, D + {i}, S[i].edge) == ScalarsAt(S, D, S[i].edge)[S[i].attribute := DecodeRow(S[i]).value]
  {
    var e := S[i].edge;
    assert ScalarAttrs(S, D + {i}, e) == ScalarAttrs(S, D, e) + {S[i].attribute};
    var m1 := ScalarsAt(S, D + {i}, e);
    var m := ScalarsAt(S, D, e)[S[i].attribute := DecodeRow(S[i]).value];
    forall a | a in m1 ensures m1[a] == m[a] {
      var k := ScalarRowFor(S, D + {i}, e, a);
      if a != S[i].attribute {
        assert k == ScalarRowFor(S, D, e, a);
      }
    }
  }

  /** Adding row `i` to the rows `D` leaves the scalars of other keys alone. */
  lemma ScalarsAtAddOther(S: map<nat, ScalarRow>, D: set<nat>, i: nat, e: Edge)
    requires D + {i} <= S.Keys && i !in D && ScalarsUniqueOn(S, D + {i}) && ScalarsDecode(S, D + {i})
    requires e != S[i].edge
    ensures ScalarsAt(S, D + {i}, e) == ScalarsAt(S, D, e)
  {
    assert ScalarAttrs(S, D + {i}, e) == ScalarAttrs(S, D, e);
    var m1 := ScalarsAt(S, D + {i}, e);
    forall a | a in m1 ensures m1[a] == ScalarsAt(S, D, e)[a] {
      assert ScalarRowFor(S, D + {i}, e, a) == ScalarRowFor(S, D, e, a);
    }
  }

  /** Adding row `j` to the rows `D` adds its sequence under its own key and
      attribute. */
  lemma SequencesAtAdd(Q: map<nat, SequenceRow>, D: set<nat>, j: nat)
    requires D + {j} <= Q.Keys && j !in D && SequencesUniqueOn(Q, D + {j})
    ensures SequencesAt(Q, D + {j}, Q[j].edge)
         == SequencesAt(Q, D, Q[j].edge)[Q[j].attribute := Denormalize(Q[j].values, Q[j].typeTag)]
  {
    var e := Q[j].edge;
    assert SequenceAttrs(Q, D + {j}, e) == SequenceAttrs(Q, D, e) + {Q[j].attribute};
    var m1 := SequencesAt(Q, D + {j}, e);
    var m := SequencesAt(Q, D, e)[Q[j].attribute := Denormalize(Q[j].values, Q[j].typeTag)];
    forall a | a in m1 ensures m1[a] == m[a] {
      var k := SequenceRowFor(Q, D + {j}, e, a);
      if a != Q[j].attribute {
        assert k == SequenceRowFor(Q, D, e, a);
      }
    }
  }

  /** Adding row `j` to the rows `D` leaves the sequences of other keys alone. */
  lemma SequencesAtAddOther(Q: map<nat, SequenceRow>, D: set<nat>, j: nat, e: Edge)
    requires D + {j} <= Q.Keys && j !in D && SequencesUniqueOn(Q, D + {j}) && e != Q[j].edge
    ensures SequencesAt(Q, D + {j}, e) == SequencesAt(Q, D, e)
  {
    assert SequenceAttrs(Q, D + {j}, e) == SequenceAttrs(Q, D, e);
    var m1 := SequencesAt(Q, D + {j}, e);
    forall a | a in m1 ensures m1[a] == SequencesAt(Q, D, e)[a] {
      assert SequenceRowFor(Q, D + {j}, e, a) == SequenceRowFor(Q, D, e, a);
    }
  }

  /** The entry regrouping gives key `e` (two empty sub-maps when `e` is
      absent, as the loops of `restore_results` create it). */
  lemma EntryAt(S: map<nat, ScalarRow>, DS: set<nat>, Q: map<nat, SequenceRow>, DQ: set<nat>, e: Edge)
    requires Regroupable(S, DS, Q, DQ)
    ensures var r := Regroup(S, DS, Q, DQ);
            (if e in r then r[e] else Entry(map[], map[])) == Entry(ScalarsAt(S, DS, e), SequencesAt(Q, DQ, e))
  {
    if e !in ScalarEdges(S, DS) {
      assert ScalarAttrs(S, DS, e) == {};
    }
    if e !in SequenceEdges(Q, DQ) {
      assert SequenceAttrs(Q, DQ, e) == {};
    }
  }

  /** Under key `e`, regrouping one more scalar row agrees with InsertScalar. */
  lemma RegroupAddScalarAt(S: map<nat, ScalarRow>, DS: set<nat>, Q: map<nat, SequenceRow>, DQ: set<nat>, i: nat, e: Edge)
    requires Regroupable(S, DS + {i}, Q, DQ) && ScalarsUniqueOn(S, DS + {i}) && i !in DS
    requires e in ScalarEdges(S, DS + {i}) + SequenceEdges(Q, DQ)
    ensures Regroupable(S, DS, Q, DQ)
    ensures InsertScalar(Regroup(S, DS, Q, DQ), S[i].edge, S[i].attribute, DecodeRow(S[i]).value)[e]
         == Entry(ScalarsAt(S, DS + {i}, e), SequencesAt(Q, DQ, e))
  {
    EntryAt(S, DS, Q, DQ, e);
    if e == S[i].edge {
      ScalarsAtAdd(S, DS, i);
    } else {
      ScalarsAtAddOther(S, DS, i, e);
    }
  }

  /** Regrouping one more scalar row adds at most its own key. */
  lemma RegroupAddScalarKeys(S: map<nat, ScalarRow>, DS: set<nat>, Q: map<nat, SequenceRow>, DQ: set<nat>, i: nat)
    requires Regroupable(S, DS + {i}, Q, DQ) && i !in DS
    ensures Regroupable(S, DS, Q, DQ)
    ensures Regroup(S, DS + {i}, Q, DQ).Keys
         == InsertScalar(Regroup(S, DS, Q, DQ), S[i].edge, S[i].attribute, DecodeRow(S[i]).value).Keys
  {
    assert ScalarEdges(S, DS + {i}) == ScalarEdges(S, DS) + {S[i].edge};
  }

  /** Regrouping one more scalar row is one more InsertScalar step. */
  lemma RegroupAddScalar(S: map<nat, ScalarRow>, DS: set<nat>, Q: map<nat, SequenceRow>, DQ: set<nat>, i: nat)
    requires Regroupable(S, DS + {i}, Q, DQ) && ScalarsUniqueOn(S, DS + {i}) && i !in DS
    ensures Regroupable(S, DS, Q, DQ)
    ensures Regroup(S, DS + {i}, Q, DQ)
         == InsertScalar(Regroup(S, DS, Q, DQ), S[i].edge, S[i].attribute, DecodeRow(S[i]).value)
  {
    var after := Regroup(S, DS + {i}, Q, DQ);
    var wanted := InsertScalar(Regroup(S, DS, Q, DQ), S[i].edge, S[i].attribute, DecodeRow(S[i]).value);
    RegroupAddScalarKeys(S, DS, Q, DQ, i);
    forall e | e in after
      ensures after[e] == wanted[e]
    {
      RegroupAddScalarAt(S, DS, Q, DQ, i, e);
    }
  }

  /** Under key `e`, regrouping one more sequence row agrees with InsertSequence. */
  lemma RegroupAddSequenceAt(S: map<nat, ScalarRow>, DS: set<nat>, Q: map<nat, SequenceRow>, DQ: set<nat>, j: nat, e: Edge)
    requires Regroupable(S, DS, Q, DQ + {j}) && SequencesUniqueOn(Q, DQ + {j}) && j !in DQ
    requires e in ScalarEdges(S, DS) + SequenceEdges(Q, DQ + {j})
    ensures Regroupable(S, DS, Q, DQ)
    ensures InsertSequence(Regroup(S, DS, Q, DQ), Q[j].edge, Q[j].attribute, Denormalize(Q[j].values, Q[j].typeTag))[e]
         == Entry(ScalarsAt(S, DS, e), SequencesAt(Q, DQ + {j}, e))
  {
    EntryAt(S, DS, Q, DQ, e);
    if e == Q[j].edge {
      SequencesAtAdd(Q, DQ, j);
    } else {
      SequencesAtAddOther(Q, DQ, j, e);
    }
  }

  /** Regrouping one more sequence row adds at most its own key. */
  lemma RegroupAddSequenceKeys(S: map<nat, ScalarRow>, DS: set<nat>, Q: map<nat, SequenceRow>, DQ: set<nat>, j: nat)
    requires Regroupable(S, DS, Q, DQ + {j}) && j !in DQ
    ensures Regroupable(S, DS, Q, DQ)
    ensures Regroup(S, DS, Q, DQ + {j}).Keys
         == InsertSequence(Regroup(S, DS, Q, DQ), Q[j].edge, Q[j].attribute, Denormalize(Q[j].values, Q[j].typeTag)).Keys
  {
    assert SequenceEdges(Q, DQ + {j}) == SequenceEdges(Q, DQ) + {Q[j].edge};
  }

  /** Regrouping one more sequence row is one more InsertSequence step. */
  lemma RegroupAddSequence(S: map<nat, ScalarRow>, DS: set<nat>, Q: map<nat, SequenceRow>, DQ: set<nat>, j: nat)
    requires Regroupable(S, DS, Q, DQ + {j}) && SequencesUniqueOn(Q, DQ + {j}) && j !in DQ
    ensures Regroupable(S, DS, Q, DQ)
    ensures Regroup(S, DS, Q, DQ + {j})
         == InsertSequence(Regroup(S, DS, Q, DQ), Q[j].edge, Q[j].attribute, Denormalize(Q[j].values, Q[j].typeTag))
  {
    var after := Regroup(S, DS, Q, DQ + {j});
    var wanted := InsertSequence(Regroup(S, DS, Q, DQ), Q[j].edge, Q[j].attribute, Denormalize(Q[j].values, Q[j].typeTag));
    RegroupAddSequenceKeys(S, DS, Q, DQ, j);
    forall e | e in after
      ensures after[e] == wanted[e]
    {
      RegroupAddSequenceAt(S, DS, Q, DQ, j, e);
    }
  }

  /** The ids in a list of rows. */
  function Elements(order: seq<nat>): set<nat>
  {
    set i | i in order
  }

  /** No row is listed twice. */
  predicate Distinct(order: seq<nat>)
  {
    forall p, q :: 0 <= p < q < |order| ==> order[p] != order[q]
  }

  /** The scalar loop of `restore_results` over the rows as the relationship
      lists them: each row is decoded and inserted in turn, and the first row
      that does not decode ends the loop with its error. */
  function GroupScalarRows(S: map<nat, ScalarRow>, order: seq<nat>): (r: Result<Data>)
    requires forall i :: i in order ==> i in S
    ensures r.Ok? ==> forall i :: i in order ==> DecodeRow(S[i]).Ok? && S[i].edge in r.value
    decreases |order|
  {
    if order == [] then Ok(map[])
    else
      var row := S[order[|order| - 1]];
      match GroupScalarRows(S, order[..|order| - 1])
      case Err(e) => Err(e)
      case Ok(data) =>
        match DecodeRow(row)
        case Err(e) => Err(e)
        case Ok(v) => Ok(InsertScalar(data, row.edge, row.attribute, v))
  }

  /** The sequence loop of `restore_results`, on top of the mapping `data`
      the scalar loop built. */
  function GroupSequenceRows(Q: map<nat, SequenceRow>, order: seq<nat>, data: Data): (r: Data)
    requires forall j :: j in order ==> j in Q
    decreases |order|
  {
    if order == [] then data
    else
      var row := Q[order[|order| - 1]];
      InsertSequence(GroupSequenceRows(Q, order[..|order| - 1], data), row.edge, row.attribute,
                     Denormalize(row.values, row.typeTag))
  }

  /** Once a prefix of the rows fails, the whole loop fails with that error:
      the rows after it are never looked at. */
  lemma {:induction false} GroupScalarRowsStops(S: map<nat, ScalarRow>, order: seq<nat>, k: nat)
    requires forall i :: i in order ==> i in S
    requires k <= |order| && GroupScalarRows(S, order[..k]).Err?
    ensures GroupScalarRows(S, order) == GroupScalarRows(S, order[..k])
    decreases |order|
  {
    if k == |order| {
      assert order[..k] == order;
    } else {
      var init := order[..|order| - 1];
      assert init[..k] == order[..k];
      GroupScalarRowsStops(S, init, k);
    }
  }

  /** Dropping the last row of a list removes exactly that row's id. */
  lemma ElementsInit(order: seq<nat>)
    requires order != [] && Distinct(order)
    ensures Elements(order) == Elements(order[..|order| - 1]) + {order[|order| - 1]}
    ensures order[|order| - 1] !in Elements(order[..|order| - 1])
    ensures Distinct(order[..|order| - 1])
  {
    var init := order[..|order| - 1];
    assert order == init + [order[|order| - 1]];
  }

  /** Whatever the order of the rows, the scalar loop fails exactly when some
      row does not decode, fails with the error of such a row, and otherwise
      builds the mapping `Regroup` describes. */
  lemma {:induction false} GroupScalarRowsMeaning(S: map<nat, ScalarRow>, Q: map<nat, SequenceRow>, order: seq<nat>)
    requires forall i :: i in order ==> i in S
    requires Distinct(order) && ScalarsUniqueOn(S, Elements(order))
    ensures Elements(order) <= S.Keys
    ensures GroupScalarRows(S, order).Ok? <==> ScalarsDecode(S, Elements(order))
    ensures GroupScalarRows(S, order).Ok? ==> GroupScalarRows(S, order).value == Regroup(S, Elements(order), Q, {})
    ensures GroupScalarRows(S, order).Err? ==>
              exists k :: 0 <= k < |order| && DecodeRow(S[order[k]]) == Err(GroupScalarRows(S, order).error)
    decreases |order|
  {
    if order == [] {
      assert Elements(order) == {};
    } else {
      var init := order[..|order| - 1];
      var last := order[|order| - 1];
      ElementsInit(order);
      GroupScalarRowsMeaning(S, Q, init);
      var before := GroupScalarRows(S, init);
      if before.Err? {
        var k :| 0 <= k < |init| && DecodeRow(S[init[k]]) == Err(before.error);
        assert order[k] == init[k];
      } else if DecodeRow(S[last]).Err? {
        assert order[|order| - 1] == last;
      } else {
        RegroupAddScalar(S, Elements(init), Q, {}, last);
      }
    }
  }

  /** One row more for the sequence loop is one row more for `Regroup`. */
  lemma GroupSequenceRowsStep(S: map<nat, ScalarRow>, DS: set<nat>, Q: map<nat, SequenceRow>, order: seq<nat>)
    requires order != [] && (forall j :: j in order ==> j in Q)
    requires Distinct(order) && SequencesUniqueOn(Q, Elements(order)) && Regroupable(S, DS, Q, {})
    requires Regroupable(S, DS, Q, Elements(order[..|order| - 1]))
    requires GroupSequenceRows(Q, order[..|order| - 1], Regroup(S, DS, Q, {}))
          == Regroup(S, DS, Q, Elements(order[..|order| - 1]))
    ensures Regroupable(S, DS, Q, Elements(order))
    ensures GroupSequenceRows(Q, order, Regroup(S, DS, Q, {})) == Regroup(S, DS, Q, Elements(order))
  {
    var init := order[..|order| - 1];
    var last := order[|order| - 1];
    var DQ := Elements(init);
    ElementsInit(order);
    assert SequencesUniqueOn(Q, DQ + {last});
    var row := Q[last];
    assert GroupSequenceRows(Q, order, Regroup(S, DS, Q, {}))
        == InsertSequence(Regroup(S, DS, Q, DQ), row.edge, row.attribute, Denormalize(row.values, row.typeTag));
    RegroupAddSequence(S, DS, Q, DQ, last);
  }

  /** Whatever the order of the rows, the sequence loop adds to the mapping
      of the scalar rows `DS` exactly what `Regroup` describes. */
  lemma {:induction false} GroupSequenceRowsMeaning(S: map<nat, ScalarRow>, DS: set<nat>, Q: map<nat, SequenceRow>,
                                                    order: seq<nat>)
    requires forall j :: j in order ==> j in Q
    requires Distinct(order) && SequencesUniqueOn(Q, Elements(order)) && Regroupable(S, DS, Q, {})
    ensures Regroupable(S, DS, Q, Elements(order))
    ensures GroupSequenceRows(Q, order, Regroup(S, DS, Q, {})) == Regroup(S, DS, Q, Elements(order))
    decreases |order|
  {
    if order == [] {
      assert Elements(order) == {};
    } else {
      ElementsInit(order);
      GroupSequenceRowsMeaning(S, DS, Q, order[..|order| - 1]);
      GroupSequenceRowsStep(S, DS, Q, order);
    }
  }

  // ---------------------------------------------------------------------
  // Round trip

  /** The scalar survives `type_conversion` of its stored text and tag. */
  ghost predicate Decodable(v: Value)
  {
    TypeConversion(Text(v), TypeTag(v)).Ok?
  }

  /** Every scalar of the mapping survives decoding. */
  ghost predicate AllDecodable(data: Data)
  {
    forall e, a :: e in data && a in data[e].scalars ==> Decodable(data[e].scalars[a])
  }

  /** Some scalar of the mapping fails `type_conversion` with `err`. */
  ghost predicate FailsWith(data: Data, err: Error)
  {
    exists e, a :: e in data && a in data[e].scalars && TypeConversion(Text(data[e].scalars[a]), TypeTag(data[e].scalars[a])) == Err(err)
  }

  /** A scalar row of a bundle that encodes `data` that does not decode
      fails with the error of the scalar of `data` it was written for. */
  lemma RowFails(S: map<nat, ScalarRow>, Q: map<nat, SequenceRow>, d: nat, data: Data, i: nat)
    requires BundleEncodes(S, Q, d, data) && i in ScalarIds(S, d) && DecodeRow(S[i]).Err?
    ensures FailsWith(data, DecodeRow(S[i]).error)
  {
    var e, a := S[i].edge, S[i].attribute;
    assert e in data && a in data[e].scalars && S[i] == EncodeScalar(d, e, a, data[e].scalars[a]);
  }

  /** The row written for a scalar sits under its bundle, key and attribute,
      and decodes as the scalar does: strings, ints and floats to themselves,
      bools to `True`, and exactly the decodable scalars without error. */
  lemma EncodeScalarDecodes(d: nat, e: Edge, a: string, v: Value)
    ensures EncodeScalar(d, e, a, v).dataId == d && EncodeScalar(d, e, a, v).edge == e
            && EncodeScalar(d, e, a, v).attribute == a
    ensures v.Str? || v.Int? || v.Float? ==> DecodeRow(EncodeScalar(d, e, a, v)) == Ok(v)
    ensures v.Bool? ==> DecodeRow(EncodeScalar(d, e, a, v)) == Ok(Bool(true))
    ensures DecodeRow(EncodeScalar(d, e, a, v)).Ok? <==> Decodable(v)
  {
    DecodeEncode(v);
  }

  /** The row written for a sequence sits under its bundle, key and
      attribute, and its values and tag rebuild the sequence. */
  lemma EncodeSequenceRestores(d: nat, e: Edge, a: string, s: SeqValue)
    ensures EncodeSequence(d, e, a, s).dataId == d && EncodeSequence(d, e, a, s).edge == e
            && EncodeSequence(d, e, a, s).attribute == a
    ensures Denormalize(EncodeSequence(d, e, a, s).values, EncodeSequence(d, e, a, s).typeTag) == s
  {
  }

  /** A key with at least one attribute; restore cannot recreate any other. */
  predicate HasAttributes(en: Entry)
  {
    en.scalars != map[] || en.sequences != map[]
  }

  /** What restore gives back for a stored mapping: the keys that carry some
      attribute, each scalar as `type_conversion` decodes its text and tag,
      and each sequence as stored. */
  ghost function Reloaded(data: Data): Data
    requires AllDecodable(data)
  {
    map e | e in data && HasAttributes(data[e]) ::
      Entry(map a | a in data[e].scalars :: TypeConversion(Text(data[e].scalars[a]), TypeTag(data[e].scalars[a])).value,
            data[e].sequences)
  }

  /** The rows of a bundle that encodes `data` all decode exactly when every
      scalar of `data` is decodable. */
  lemma EncodedDecodes(S: map<nat, ScalarRow>, d: nat, data: Data)
    requires ScalarRowsEncodeOn(S, d, data, data.Keys)
    ensures ScalarsDecode(S, ScalarIds(S, d)) <==> AllDecodable(data)
  {
    if ScalarsDecode(S, ScalarIds(S, d)) {
      forall e, a | e in data && a in data[e].scalars
        ensures Decodable(data[e].scalars[a])
      {
        var i :| i in S && S[i] == EncodeScalar(d, e, a, data[e].scalars[a]);
        assert i in ScalarIds(S, d);
      }
    }
  }

  /** The keys a bundle that encodes `data` regroups into are the keys of
      `data` that carry some attribute. */
  lemma EncodedEdges(S: map<nat, ScalarRow>, Q: map<nat, SequenceRow>, d: nat, data: Data)
    requires BundleEncodes(S, Q, d, data)
    ensures ScalarEdges(S, ScalarIds(S, d)) + SequenceEdges(Q, SequenceIds(Q, d))
         == set e | e in data && HasAttributes(data[e])
  {
    var have := ScalarEdges(S, ScalarIds(S, d)) + SequenceEdges(Q, SequenceIds(Q, d));
    forall e | e in data && HasAttributes(data[e]) ensures e in have {
      if data[e].scalars != map[] {
        var a :| a in data[e].scalars;
        var i :| i in S && S[i] == EncodeScalar(d, e, a, data[e].scalars[a]);
        assert i in ScalarIds(S, d);
      } else {
        var a :| a in data[e].sequences;
        var j :| j in Q && Q[j] == EncodeSequence(d, e, a, data[e].sequences[a]);
        assert j in SequenceIds(Q, d);
      }
    }
  }

  /** Under each key, the scalar rows of a bundle that encodes `data`
      regroup into the decoded scalars of that key. */
  lemma EncodedScalarsAt(S: map<nat, ScalarRow>, d: nat, data: Data, e: Edge)
    requires ScalarRowsEncodeOn(S, d, data, data.Keys) && AllDecodable(data) && e in data
    ensures ScalarsDecode(S, ScalarIds(S, d))
    ensures ScalarsAt(S, ScalarIds(S, d), e)
         == map a | a in data[e].scalars :: TypeConversion(Text(data[e].scalars[a]), TypeTag(data[e].scalars[a])).value
  {
    EncodedDecodes(S, d, data);
    var D := ScalarIds(S, d);
    forall a | a in data[e].scalars ensures a in ScalarAttrs(S, D, e) {
      var i :| i in S && S[i] == EncodeScalar(d, e, a, data[e].scalars[a]);
      assert i in D;
    }
    forall a | a in ScalarAttrs(S, D, e) ensures a in data[e].scalars {
      var k := ScalarRowFor(S, D, e, a);
    }
  }

  /** Under each key, the sequence rows of a bundle that encodes `data`
      regroup into that key's sequences, unchanged. */
  lemma EncodedSequencesAt(Q: map<nat, SequenceRow>, d: nat, data: Data, e: Edge)
    requires SequenceRowsEncodeOn(Q, d, data, data.Keys) && e in data
    ensures SequencesAt(Q, SequenceIds(Q, d), e) == data[e].sequences
  {
    var D := SequenceIds(Q, d);
    forall a | a in data[e].sequences ensures a in SequenceAttrs(Q, D, e) {
      var j :| j in Q && Q[j] == EncodeSequence(d, e, a, data[e].sequences[a]);
      assert j in D;
    }
    forall a | a in SequenceAttrs(Q, D, e) ensures a in data[e].sequences {
      var k := SequenceRowFor(Q, D, e, a);
    }
  }

  /** The keys restore rebuilds from a bundle that encodes `data`. */
  lemma EncodedKeys(S: map<nat, ScalarRow>, Q: map<nat, SequenceRow>, d: nat, data: Data)
    requires BundleEncodes(S, Q, d, data) && AllDecodable(data)
    ensures Regroupable(S, ScalarIds(S, d), Q, SequenceIds(Q, d))
    ensures Regroup(S, ScalarIds(S, d), Q, SequenceIds(Q, d)).Keys == Reloaded(data).Keys
  {
    EncodedDecodes(S, d, data);
    EncodedEdges(S, Q, d, data);
  }

  /** The entry restore rebuilds under one key of a bundle that encodes `data`. */
  lemma EncodedEntry(S: map<nat, ScalarRow>, Q: map<nat, SequenceRow>, d: nat, data: Data, e: Edge)
    requires BundleEncodes(S, Q, d, data) && AllDecodable(data) && e in Reloaded(data)
    ensures Regroupable(S, ScalarIds(S, d), Q, SequenceIds(Q, d))
    ensures e in Regroup(S, ScalarIds(S, d), Q, SequenceIds(Q, d))
    ensures Regroup(S, ScalarIds(S, d), Q, SequenceIds(Q, d))[e] == Reloaded(data)[e]
  {
    EncodedKeys(S, Q, d, data);
    EncodedScalarsAt(S, d, data, e);
    EncodedSequencesAt(Q, d, data, e);
  }

  /** Round trip of one bundle: the rows `store_results` writes for `data`
      all decode exactly when every scalar of `data` does, and then regroup
      into Reloaded(data). */
  lemma BundleRoundTrip(S: map<nat, ScalarRow>, Q: map<nat, SequenceRow>, d: nat, data: Data)
    requires BundleEncodes(S, Q, d, data)
    ensures ScalarsDecode(S, ScalarIds(S, d)) <==> AllDecodable(data)
    ensures AllDecodable(data) ==>
              Regroup(S, ScalarIds(S, d), Q, SequenceIds(Q, d)) == Reloaded(data)
  {
    EncodedDecodes(S, d, data);
    if AllDecodable(data) {
      var got := Regroup(S, ScalarIds(S, d), Q, SequenceIds(Q, d));
      EncodedKeys(S, Q, d, data);
      forall e | e in got ensures got[e] == Reloaded(data)[e] {
        EncodedEntry(S, Q, d, data, e);
      }
    }
  }

  /** Every scalar is a string, an int or a float, and every key carries
      some attribute. */
  predicate Lossless(data: Data)
  {
    && (forall e, a :: e in data && a in data[e].scalars ==>
          data[e].scalars[a].Str? || data[e].scalars[a].Int? || data[e].scalars[a].Float?)
    && (forall e :: e in data ==> HasAttributes(data[e]))
  }

  /** A lossless mapping comes back from restore unchanged. */
  lemma LosslessRoundTrip(data: Data)
    requires Lossless(data)
    ensures AllDecodable(data)
    ensures Reloaded(data) == data
  {
    forall e, a | e in data && a in data[e].scalars
      ensures TypeConversion(Text(data[e].scalars[a]), TypeTag(data[e].scalars[a])) == Ok(data[e].scalars[a])
    {
      DecodeEncode(data[e].scalars[a]);
    }
    var r := Reloaded(data);
    forall e | e in r ensures r[e] == data[e] {
      assert r[e].scalars == data[e].scalars;
    }
  }

  // ---------------------------------------------------------------------
  // Ownership

  /** Each bundle is referenced at most once, in one role of one pair. */
  ghost predicate OwnedOnce(pairs: map<nat, PairRow>)
  {
    forall p, q :: p in pairs && q in pairs ==>
      && (pairs[p].inputId.Some? ==> pairs[p].inputId != pairs[q].resultId)
      && (p != q && pairs[p].inputId.Some? ==> pairs[p].inputId != pairs[q].inputId)
      && (p != q && pairs[p].resultId.Some? ==> pairs[p].resultId != pairs[q].resultId)
  }

  /** The pair after bundle `d` was deleted: the ORM nulls a foreign key that
      pointed to it. */
  function Unlink(p: PairRow, d: nat): (r: PairRow)
    ensures r.inputId != Some(d) && r.resultId != Some(d)
    ensures p.inputId == Some(d) ==> r.inputId == None
    ensures p.resultId == Some(d) ==> r.resultId == None
    ensures p.inputId != Some(d) ==> r.inputId == p.inputId
    ensures p.resultId != Some(d) ==> r.resultId == p.resultId
  {
    PairRow(if p.inputId == Some(d) then None else p.inputId,
            if p.resultId == Some(d) then None else p.resultId)
  }

  /** The scalar table after bundle `d` was deleted with its rows: no row of
      `d` is left and every other bundle keeps exactly its rows. */
  function DropScalars(S: map<nat, ScalarRow>, d: nat): (r: map<nat, ScalarRow>)
    ensures r.Keys <= S.Keys && forall i :: i in r ==> r[i] == S[i]
    ensures ScalarIds(r, d) == {}
    ensures forall d' :: d' != d ==> ScalarIds(r, d') == ScalarIds(S, d')
  {
    map i | i in S && S[i].dataId != d :: S[i]
  }

  /** Likewise for the sequence table. */
  function DropSequences(Q: map<nat, SequenceRow>, d: nat): (r: map<nat, SequenceRow>)
    ensures r.Keys <= Q.Keys && forall j :: j in r ==> r[j] == Q[j]
    ensures SequenceIds(r, d) == {}
    ensures forall d' :: d' != d ==> SequenceIds(r, d') == SequenceIds(Q, d')
  {
    map j | j in Q && Q[j].dataId != d :: Q[j]
  }

  /** The pair table after bundle `d` was deleted: every pair stays, and no
      reference to `d` is left. */
  function UnlinkAll(pairs: map<nat, PairRow>, d: nat): (r: map<nat, PairRow>)
    ensures r.Keys == pairs.Keys
    ensures forall p :: p in r ==> r[p] == Unlink(pairs[p], d)
    ensures forall p :: p in r ==> r[p].inputId != Some(d) && r[p].resultId != Some(d)
  {
    map p | p in pairs :: Unlink(pairs[p], d)
  }

  /** Uniqueness per bundle gives uniqueness within any part of one bundle. */
  lemma UniqueWithinBundle(S: map<nat, ScalarRow>, Q: map<nat, SequenceRow>, d: nat, DS: set<nat>, DQ: set<nat>)
    requires ScalarKeysUnique(S) && SequenceKeysUnique(Q)
    requires DS <= ScalarIds(S, d) && DQ <= SequenceIds(Q, d)
    ensures ScalarsUniqueOn(S, DS) && SequencesUniqueOn(Q, DQ)
  {
  }

  /** Rows added for other bundles leave what bundle `d` encodes unchanged. */
  lemma KeepEncodes(S0: map<nat, ScalarRow>, S: map<nat, ScalarRow>, Q0: map<nat, SequenceRow>, Q: map<nat, SequenceRow>,
                    d: nat, data: Data)
    requires BundleEncodes(S0, Q0, d, data)
    requires forall i :: i in S0 ==> i in S && S[i] == S0[i]
    requires forall i :: i in S && i !in S0 ==> S[i].dataId != d
    requires forall j :: j in Q0 ==> j in Q && Q[j] == Q0[j]
    requires forall j :: j in Q && j !in Q0 ==> Q[j].dataId != d
    ensures BundleEncodes(S, Q, d, data)
  {
    forall e, a | e in data && a in data[e].scalars
      ensures exists i :: i in S && S[i] == EncodeScalar(d, e, a, data[e].scalars[a])
    {
      var i :| i in S0 && S0[i] == EncodeScalar(d, e, a, data[e].scalars[a]);
      assert S[i] == S0[i];
    }
    forall e, a | e in data && a in data[e].sequences
      ensures exists j :: j in Q && Q[j] == EncodeSequence(d, e, a, data[e].sequences[a])
    {
      var j :| j in Q0 && Q0[j] == EncodeSequence(d, e, a, data[e].sequences[a]);
      assert Q[j] == Q0[j];
    }
  }

  // ---------------------------------------------------------------------
  // Table invariants

  /** Scalar ids are positive and below the id counter, every row belongs
      to an existing bundle, and no bundle has two rows for one key and
      attribute. */
  ghost predicate ScalarTableOk(S: map<nat, ScalarRow>, bundles: set<nat>, next: nat)
  {
    && (forall i :: i in S ==> 0 < i < next && S[i].dataId in bundles)
    && ScalarKeysUnique(S)
  }

  /** Likewise for the sequence table. */
  ghost predicate SequenceTableOk(Q: map<nat, SequenceRow>, bundles: set<nat>, next: nat)
  {
    && (forall j :: j in Q ==> 0 < j < next && Q[j].dataId in bundles)
    && SequenceKeysUnique(Q)
  }

  /** Pair ids are positive and below the id counter, every reference
      points to an existing bundle, and no bundle is referenced twice. */
  ghost predicate PairTableOk(pairs: map<nat, PairRow>, bundles: set<nat>, next: nat)
  {
    && (forall p :: p in pairs ==> 0 < p < next)
    && (forall p :: p in pairs && pairs[p].inputId.Some? ==> pairs[p].inputId.value in bundles)
    && (forall p :: p in pairs && pairs[p].resultId.Some? ==> pairs[p].resultId.value in bundles)
    && OwnedOnce(pairs)
  }

  /** Bundle ids are positive and below the id counter. */
  ghost predicate BundleTableOk(bundles: set<nat>, next: nat)
  {
    forall d :: d in bundles ==> 0 < d < next
  }

  /** Adding a scalar row under a fresh id, for a key and attribute its
      bundle does not have yet, keeps the scalar table consistent. */
  lemma AddScalarRowOk(S: map<nat, ScalarRow>, bundles: set<nat>, next: nat, row: ScalarRow)
    requires ScalarTableOk(S, bundles, next) && 0 < next && row.dataId in bundles
    requires forall i :: i in S ==> S[i].dataId != row.dataId || S[i].edge != row.edge || S[i].attribute != row.attribute
    ensures ScalarTableOk(S[next := row], bundles, next + 1)
  {
  }

  /** Likewise for a sequence row. */
  lemma AddSequenceRowOk(Q: map<nat, SequenceRow>, bundles: set<nat>, next: nat, row: SequenceRow)
    requires SequenceTableOk(Q, bundles, next) && 0 < next && row.dataId in bundles
    requires forall j :: j in Q ==> Q[j].dataId != row.dataId || Q[j].edge != row.edge || Q[j].attribute != row.attribute
    ensures SequenceTableOk(Q[next := row], bundles, next + 1)
  {
  }

  /** Removing bundle `d` and every row it owns keeps the row tables consistent. */
  lemma DeleteRowsOk(S: map<nat, ScalarRow>, Q: map<nat, SequenceRow>, bundles: set<nat>, ns: nat, nq: nat, d: nat)
    requires ScalarTableOk(S, bundles, ns) && SequenceTableOk(Q, bundles, nq)
    ensures ScalarTableOk(DropScalars(S, d), bundles - {d}, ns)
    ensures SequenceTableOk(DropSequences(Q, d), bundles - {d}, nq)
  {
  }

  /** Nulling every reference to bundle `d` and removing it keeps the pair
      table consistent. */
  lemma UnlinkOk(pairs: map<nat, PairRow>, bundles: set<nat>, next: nat, d: nat)
    requires PairTableOk(pairs, bundles, next)
    ensures PairTableOk(UnlinkAll(pairs, d), bundles - {d}, next)
  {
    var u := UnlinkAll(pairs, d);
    forall p, q | p in u && q in u
      ensures && (u[p].inputId.Some? ==> u[p].inputId != u[q].resultId)
              && (p != q && u[p].inputId.Some? ==> u[p].inputId != u[q].inputId)
              && (p != q && u[p].resultId.Some? ==> u[p].resultId != u[q].resultId)
    {
    }
  }

  /** A new pair linking two distinct fresh bundles keeps the pair table consistent. */
  lemma AddPairOk(pairs: map<nat, PairRow>, bundles: set<nat>, next: nat, nextData: nat, a: nat, b: nat)
    requires PairTableOk(pairs, bundles, next) && BundleTableOk(bundles, nextData) && 0 < next
    requires nextData <= a < b
    ensures PairTableOk(pairs[next := PairRow(Some(a), Some(b))], bundles + {a, b}, next + 1)
  {
    var u := pairs[next := PairRow(Some(a), Some(b))];
    forall p, q | p in u && q in u
      ensures && (u[p].inputId.Some? ==> u[p].inputId != u[q].resultId)
              && (p != q && u[p].inputId.Some? ==> u[p].inputId != u[q].inputId)
              && (p != q && u[p].resultId.Some? ==> u[p].resultId != u[q].resultId)
    {
    }
  }

  // ---------------------------------------------------------------------
  // Writing the rows of one bundle

  /** Part way through writing bundle `d`: the tables `S0` and `Q0` are kept,
      every new row belongs to `d`, and `d` encodes the keys `done` of `data`. */
  ghost predicate BundleWritten(S0: map<nat, ScalarRow>, S: map<nat, ScalarRow>,
                                Q0: map<nat, SequenceRow>, Q: map<nat, SequenceRow>,
                                d: nat, data: Data, done: set<Edge>)
  {
    && (forall i :: i in S0 ==> i in S && S[i] == S0[i])
    && (forall j :: j in Q0 ==> j in Q && Q[j] == Q0[j])
    && (forall i :: i in S && i !in S0 ==> S[i].dataId == d)
    && (forall j :: j in Q && j !in Q0 ==> Q[j].dataId == d)
    && ScalarRowsEncodeOn(S, d, data, done) && SequenceRowsEncodeOn(Q, d, data, done)
  }

  /** A bundle that owns no row yet encodes no key. */
  lemma BundleWrittenStart(S0: map<nat, ScalarRow>, Q0: map<nat, SequenceRow>, d: nat, data: Data)
    requires forall i :: i in S0 ==> S0[i].dataId != d
    requires forall j :: j in Q0 ==> Q0[j].dataId != d
    ensures BundleWritten(S0, S0, Q0, Q0, d, data, {})
  {
  }

  /** Rows of `d` added for one more key `e` extend what is written by `e`. */
  lemma BundleWrittenStep(S0: map<nat, ScalarRow>, S1: map<nat, ScalarRow>, S: map<nat, ScalarRow>,
                          Q0: map<nat, SequenceRow>, Q1: map<nat, SequenceRow>, Q: map<nat, SequenceRow>,
                          d: nat, data: Data, done: set<Edge>, e: Edge)
    requires BundleWritten(S0, S1, Q0, Q1, d, data, done)
    requires forall i :: i in S1 ==> i in S && S[i] == S1[i]
    requires forall j :: j in Q1 ==> j in Q && Q[j] == Q1[j]
    requires forall i :: i in S && i !in S1 ==> S[i].dataId == d
    requires forall j :: j in Q && j !in Q1 ==> Q[j].dataId == d
    requires ScalarRowsEncodeOn(S, d, data, done + {e}) && SequenceRowsEncodeOn(Q, d, data, done + {e})
    ensures BundleWritten(S0, S, Q0, Q, d, data, done + {e})
  {
  }

  // ---------------------------------------------------------------------
  // Writing the rows of one key

  /** Part way through writing the scalar rows of key `e` into bundle `d`:
      the table `S0` is kept, had no row of `d` for `e`, and the new rows
      encode exactly the attributes `written`, each under a fresh id. */
  ghost predicate ScalarsWritten(S0: map<nat, ScalarRow>, S: map<nat, ScalarRow>, bundles: set<nat>, next: nat,
                                 d: nat, data: Data, e: Edge, written: set<string>)
  {
    && e in data && written <= data[e].scalars.Keys
    && 0 < next && ScalarTableOk(S, bundles, next)
    && (forall i :: i in S0 ==> i in S && S[i] == S0[i])
    && (forall i :: i in S0 ==> S0[i].dataId != d || S0[i].edge != e)
    && (forall i :: i in S && i !in S0 ==>
          && S[i].edge == e && S[i].attribute in written
          && S[i] == EncodeScalar(d, e, S[i].attribute, data[e].scalars[S[i].attribute]))
    && (forall a :: a in written ==> exists i :: i in S && S[i] == EncodeScalar(d, e, a, data[e].scalars[a]))
  }

  /** Likewise for the sequence rows of key `e`. */
  ghost predicate SequencesWritten(Q0: map<nat, SequenceRow>, Q: map<nat, SequenceRow>, bundles: set<nat>, next: nat,
                                   d: nat, data: Data, e: Edge, written: set<string>)
  {
    && e in data && written <= data[e].sequences.Keys
    && 0 < next && SequenceTableOk(Q, bundles, next)
    && (forall j :: j in Q0 ==> j in Q && Q[j] == Q0[j])
    && (forall j :: j in Q0 ==> Q0[j].dataId != d || Q0[j].edge != e)
    && (forall j :: j in Q && j !in Q0 ==>
          && Q[j].edge == e && Q[j].attribute in written
          && Q[j] == EncodeSequence(d, e, Q[j].attribute, data[e].sequences[Q[j].attribute]))
    && (forall a :: a in written ==> exists j :: j in Q && Q[j] == EncodeSequence(d, e, a, data[e].sequences[a]))
  }

  /** Before the first row of key `e`, nothing is written. */
  lemma ScalarsWrittenStart(S0: map<nat, ScalarRow>, bundles: set<nat>, next: nat, d: nat, data: Data, e: Edge,
                            done: set<Edge>)
    requires 0 < next && ScalarTableOk(S0, bundles, next)
    requires e in data && e !in done && ScalarRowsEncodeOn(S0, d, data, done)
    ensures ScalarsWritten(S0, S0, bundles, next, d, data, e, {})
  {
  }

  /** Likewise for sequences. */
  lemma SequencesWrittenStart(Q0: map<nat, SequenceRow>, bundles: set<nat>, next: nat, d: nat, data: Data, e: Edge,
                              done: set<Edge>)
    requires 0 < next && SequenceTableOk(Q0, bundles, next)
    requires e in data && e !in done && SequenceRowsEncodeOn(Q0, d, data, done)
    ensures SequencesWritten(Q0, Q0, bundles, next, d, data, e, {})
  {
  }

  /** Writing the row of one more attribute under the next id. */
  lemma ScalarsWrittenStep(S0: map<nat, ScalarRow>, S: map<nat, ScalarRow>, bundles: set<nat>, next: nat,
                           d: nat, data: Data, e: Edge, written: set<string>, a: string)
    requires ScalarsWritten(S0, S, bundles, next, d, data, e, written)
    requires d in bundles && a in data[e].scalars && a !in written
    ensures ScalarsWritten(S0, S[next := EncodeScalar(d, e, a, data[e].scalars[a])], bundles, next + 1,
                           d, data, e, written + {a})
  {
    var row := EncodeScalar(d, e, a, data[e].scalars[a]);
    AddScalarRowOk(S, bundles, next, row);
    var S' := S[next := row];
    forall b | b in written + {a}
      ensures exists i :: i in S' && S'[i] == EncodeScalar(d, e, b, data[e].scalars[b])
    {
      if b == a {
        assert S'[next] == row;
      } else {
        var i :| i in S && S[i] == EncodeScalar(d, e, b, data[e].scalars[b]);
        assert S'[i] == S[i];
      }
    }
  }

  /** Likewise for sequences. */
  lemma SequencesWrittenStep(Q0: map<nat, SequenceRow>, Q: map<nat, SequenceRow>, bundles: set<nat>, next: nat,
                             d: nat, data: Data, e: Edge, written: set<string>, a: string)
    requires SequencesWritten(Q0, Q, bundles, next, d, data, e, written)
    requires d in bundles && a in data[e].sequences && a !in written
    ensures SequencesWritten(Q0, Q[next := EncodeSequence(d, e, a, data[e].sequences[a])], bundles, next + 1,
                             d, data, e, written + {a})
  {
    var row := EncodeSequence(d, e, a, data[e].sequences[a]);
    AddSequenceRowOk(Q, bundles, next, row);
    var Q' := Q[next := row];
    forall b | b in written + {a}
      ensures exists j :: j in Q' && Q'[j] == EncodeSequence(d, e, b, data[e].sequences[b])
    {
      if b == a {
        assert Q'[next] == row;
      } else {
        var j :| j in Q && Q[j] == EncodeSequence(d, e, b, data[e].sequences[b]);
        assert Q'[j] == Q[j];
      }
    }
  }

  /** Once every attribute of key `e` is written, the bundle encodes `e` as
      well, and every new row belongs to it. */
  lemma ScalarsWrittenEnd(S0: map<nat, ScalarRow>, S: map<nat, ScalarRow>, bundles: set<nat>, next: nat,
                          d: nat, data: Data, e: Edge, done: set<Edge>)
    requires e in data && ScalarsWritten(S0, S, bundles, next, d, data, e, data[e].scalars.Keys)
    requires e !in done && ScalarRowsEncodeOn(S0, d, data, done)
    ensures forall i :: i in S && i !in S0 ==> S[i].dataId == d
    ensures ScalarRowsEncodeOn(S, d, data, done + {e})
  {
    forall e', a | e' in done + {e} && e' in data && a in data[e'].scalars
      ensures exists i :: i in S && S[i] == EncodeScalar(d, e', a, data[e'].scalars[a])
    {
      if e' != e {
        var i :| i in S0 && S0[i] == EncodeScalar(d, e', a, data[e'].scalars[a]);
        assert S[i] == S0[i];
      }
    }
  }

  /** Likewise for sequences. */
  lemma SequencesWrittenEnd(Q0: map<nat, SequenceRow>, Q: map<nat, SequenceRow>, bundles: set<nat>, next: nat,
                            d: nat, data: Data, e: Edge, done: set<Edge>)
    requires e in data && SequencesWritten(Q0, Q, bundles, next, d, data, e, data[e].sequences.Keys)
    requires e !in done && SequenceRowsEncodeOn(Q0, d, data, done)
    ensures forall j :: j in Q && j !in Q0 ==> Q[j].dataId == d
    ensures SequenceRowsEncodeOn(Q, d, data, done + {e})
  {
    forall e', a | e' in done + {e} && e' in data && a in data[e'].sequences
      ensures exists j :: j in Q && Q[j] == EncodeSequence(d, e', a, data[e'].sequences[a])
    {
      if e' != e {
        var j :| j in Q0 && Q0[j] == EncodeSequence(d, e', a, data[e'].sequences[a]);
        assert Q[j] == Q0[j];
      }
    }
  }
}
