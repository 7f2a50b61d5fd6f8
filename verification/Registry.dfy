/** The two identity registries of a journal, and why records built from a sound ledger never collide
    in them: the freshness of the delivery key is the only identity check that can refuse. */
module Registry {
  import opened Wrappers
  import opened Records
  import opened Capacity
  import opened Accounting
  import opened Journal

  /** Everything the rows put into the reference registry. */
  ghost function RowMentions(rows: seq<Record>): set<Reference> {
    if rows == [] then {}
    else RowMentions(rows[..|rows| - 1]) + {ReferenceTo(rows[|rows| - 1])} + Mentions(rows[|rows| - 1].body)
  }

  function RowKey(scope: Scope, r: Record): RecordKey { KeyOf(scope, ReferenceTo(r)) }

  function RowKeys(scope: Scope, rows: seq<Record>): set<RecordKey> {
    set i | 0 <= i < |rows| :: RowKey(scope, rows[i])
  }

  ghost predicate FreshKeys(scope: Scope, used: set<RecordKey>, rows: seq<Record>) {
    && (forall i :: 0 <= i < |rows| ==> RowKey(scope, rows[i]) !in used)
    && (forall i, j :: 0 <= i < j < |rows| ==> RowKey(scope, rows[i]) != RowKey(scope, rows[j]))
  }

  lemma ConsistentSubset(a: set<Reference>, b: set<Reference>)
    requires Consistent(b) && a <= b
    ensures Consistent(a)
  {
  }

  /** Registering rows one by one succeeds exactly when their identities are new and distinct and
      everything they mention agrees with everything mentioned before. */
  lemma {:induction false} RegisterExact(scope: Scope, g: Registries, rows: seq<Record>)
    requires Consistent(g.references)
    ensures RegisterRows(scope, g, rows).Ok?
            <==> FreshKeys(scope, g.identities, rows) && Consistent(g.references + RowMentions(rows))
    ensures RegisterRows(scope, g, rows).Ok?
            ==> RegisterRows(scope, g, rows).value
                == Registries(g.identities + RowKeys(scope, rows), g.references + RowMentions(rows))
  {
    if rows == [] {
      assert g.references + RowMentions(rows) == g.references;
      assert RowKeys(scope, rows) == {} && g.identities + {} == g.identities;
    } else {
      var n := |rows| - 1;
      var rest, r := rows[..n], rows[n];
      RegisterExact(scope, g, rest);
      assert RowMentions(rows) == RowMentions(rest) + ({ReferenceTo(r)} + Mentions(r.body));
      assert g.references + RowMentions(rows)
          == (g.references + RowMentions(rest)) + ({ReferenceTo(r)} + Mentions(r.body));
      hide RowMentions, Mentions, ReferenceTo, KeyOf;
      if Consistent(g.references + RowMentions(rows)) {
        ConsistentSubset(g.references + RowMentions(rest), g.references + RowMentions(rows));
      }
      hide Consistent;
      KeysSplit(scope, g.identities, rows);
    }
  }

  lemma KeysSplit(scope: Scope, used: set<RecordKey>, rows: seq<Record>)
    requires rows != []
    ensures var n := |rows| - 1;
            && RowKeys(scope, rows) == RowKeys(scope, rows[..n]) + {RowKey(scope, rows[n])}
            && (FreshKeys(scope, used, rows)
                <==> FreshKeys(scope, used, rows[..n]) && RowKey(scope, rows[n]) !in used + RowKeys(scope, rows[..n]))
  {
    var n := |rows| - 1;
    hide RowKey;
    forall k | k in RowKeys(scope, rows)
      ensures k in RowKeys(scope, rows[..n]) + {RowKey(scope, rows[n])}
    {
      var i :| 0 <= i < |rows| && k == RowKey(scope, rows[i]);
      if i < n {
        assert rows[..n][i] == rows[i];
      }
    }
    forall i | 0 <= i < n
      ensures RowKey(scope, rows[i]) in RowKeys(scope, rows[..n])
    {
      assert rows[..n][i] == rows[i];
    }
  }

  // ----- what a sound ledger holds -----

  /** A trusted external input of this history: its identity determines all of it. */
  predicate SyntheticOk(h: History, r: Reference) {
    && !r.kind.OfRow? && r.id.SyntheticIdentity?
    && r == Synthetic(r.kind, h.terms.name, r.id.role)
  }

  predicate WellMade(h: History, identities: set<RecordKey>, r: Reference) {
    SyntheticOk(h, r) || (r.kind.OfRow? && KeyOf(h.scope, r) in identities)
  }

  /** Every journal identity belongs to a delivered command or to a revision already reached. */
  predicate IdentityUsed(h: History, j: Ledger, k: RecordKey) {
    match k.id
    case DeliveryIdentity(_, scope, source, externalId) => DeliveryKey(scope, source, externalId) in j.deliveries
    case RevisionIdentity(_, _, revision) => j.book.Some? && revision <= j.book.value.current.revision
    case SyntheticIdentity(_, _, _) => false
  }

  ghost predicate RegistriesOk(h: History, j: Ledger) {
    && Consistent(j.references) && j.prior <= j.references
    && (forall r :: r in j.references ==> WellMade(h, j.identities, r))
    && (forall k :: k in j.identities ==> IdentityUsed(h, j, k))
  }

  ghost predicate ReceiptsOk(h: History, b: Book) {
    forall f :: f in b.original ==> SyntheticOk(h, b.original[f])
  }

  predicate TermsInSchema(h: History) {
    1 <= |h.terms.families| <= MAX_FAMILIES && 0 <= h.unit.scale <= 18
  }

  ghost predicate LedgerOk(h: History, j: Ledger) {
    match j.book
    case None => j == EMPTY
    case Some(b) =>
      && TermsInSchema(h) && Sound(h.terms, b) && ReceiptsOk(h, b) && RegistriesOk(h, j)
      && j.registration.Some? && j.registration.value in j.references
      && j.previous.Some? && j.previous.value in j.references
  }

  lemma EmptyOk(h: History)
    ensures LedgerOk(h, EMPTY) && RegistriesOk(h, EMPTY)
  {
  }

  lemma LedgerRegistries(h: History, j: Ledger)
    requires LedgerOk(h, j)
    ensures RegistriesOk(h, j)
  {
  }

  /** New row references and external inputs cannot collide with anything a sound ledger holds. */
  lemma NewReferencesConsistent(h: History, j: Ledger, inputs: set<Reference>, news: set<Reference>)
    requires RegistriesOk(h, j) && Consistent(news)
    requires forall r :: r in inputs ==> SyntheticOk(h, r)
    requires forall r :: r in news ==> r.kind.OfRow? && KeyOf(h.scope, r) !in j.identities
    ensures Consistent(j.references + inputs + news)
  {
    forall a, b | a in j.references + inputs + news && b in j.references + inputs + news && a.kind == b.kind
        && a.id == b.id
      ensures a == b
    {
      assert a in j.references ==> WellMade(h, j.identities, a);
      assert b in j.references ==> WellMade(h, j.identities, b);
      assert KeyOf(h.scope, a) == KeyOf(h.scope, b);
    }
  }
}
