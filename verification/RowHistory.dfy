/** How committed rows change over runs of the durable protocol, as the update handlers see them. */
module RowHistory {
  import opened Results
  import opened Models
  import opened Entities
  import opened Repositories
  import P = DurableProtocol
  import S = DurableSafety
  import Handlers

  /** The aggregate that a row holds, apart from its identity and version. */
  type Decoder<!F> = (nat, P.Content) -> State<F>

  function AsRow<F>(u: nat, row: P.Row, decode: Decoder<F>): State<F> {
    decode(u, row.content).(id := u, version := row.version)
  }

  function AsRows<F>(rows: map<P.RowId, P.Row>, decode: Decoder<F>): Rows<F> {
    map u | u in rows :: AsRow(u, rows[u], decode)
  }

  /** A row stays, its version never goes back, and a row of the same version is the same row. */
  predicate Grown(before: map<P.RowId, P.Row>, after: map<P.RowId, P.Row>) {
    forall u :: u in before ==>
      && u in after && after[u].version >= before[u].version
      && (after[u].version == before[u].version ==> after[u] == before[u])
  }

  lemma WritesGrow(rows: map<P.RowId, P.Row>, c: P.Command, writes: P.Writes)
    requires S.WritesOk(rows, c, writes)
    ensures Grown(rows, P.ApplyWrites(rows, writes))
  {
  }

  lemma StepGrows(w: P.World, e: P.Event)
    requires S.Inv(w)
    ensures Grown(w.db.rows, P.Step(w, e).db.rows)
  {
    if P.Enabled(w, e) && P.Publishes(e) {
      var a := w.attempts[e.worker];
      assert S.AttemptOk(w.db, a);
      WritesGrow(w.db.rows, a.request.command, a.stage.tx.writes);
    }
  }

  lemma {:induction false} RunsGrow(es: seq<P.Event>, more: seq<P.Event>)
    ensures Grown(P.Run(P.INITIAL, es).db.rows, P.Run(P.INITIAL, es + more).db.rows)
  {
    if more == [] {
      assert es + more == es;
    } else {
      var init := more[..|more| - 1];
      RunsGrow(es, init);
      assert (es + more)[..|es + more| - 1] == es + init;
      S.Reachable(es + init);
      StepGrows(P.Run(P.INITIAL, es + init), more[|more| - 1]);
    }
  }

  /** Any later committed table of a run has evolved from any earlier one, and files rows under their identities. */
  lemma {:induction false} RunsEvolve<F>(es: seq<P.Event>, more: seq<P.Event>, decode: Decoder<F>)
    ensures Evolved(AsRows(P.Run(P.INITIAL, es).db.rows, decode), AsRows(P.Run(P.INITIAL, es + more).db.rows, decode))
    ensures Filed(AsRows(P.Run(P.INITIAL, es).db.rows, decode))
  {
    RunsGrow(es, more);
  }

  /** So an update handler that reads in one state of a run and writes in a later one loses no update of anyone. */
  lemma {:induction false} UpdatingAmidARun<F, E>(es: seq<P.Event>, more: seq<P.Event>, decode: Decoder<F>, id: nat,
                                                 expected: nat, wanted: F, now: Time, key: UniqueKey<F>)
    ensures var before := AsRows(P.Run(P.INITIAL, es).db.rows, decode);
            var meanwhile := AsRows(P.Run(P.INITIAL, es + more).db.rows, decode);
            var (after, r) := Handlers.Updating<F, E>(before, meanwhile, id, expected, wanted, now, key);
            && (r.Err? ==> after == meanwhile)
            && (r.Ok? ==> Handlers.Updated(before, meanwhile, after, id, expected, wanted, r.value))
  {
    RunsEvolve(es, more, decode);
    Handlers.UpdatingLosesNothing<F, E>(AsRows(P.Run(P.INITIAL, es).db.rows, decode),
                                        AsRows(P.Run(P.INITIAL, es + more).db.rows, decode),
                                        id, expected, wanted, now, key);
  }
}
