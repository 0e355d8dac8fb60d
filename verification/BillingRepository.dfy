/** The billing tables of all tenants and the statements that write them. */
module BillingRepository {
  import opened Options
  import opened Calendar
  import opened Instants
  import opened Spec = Ledger

  function ErrorOf(o: Outcome): Option<Error> {
    match o
    case Done(_) => None
    case Raised(_, error) => Some(error)
  }

  /** The tenants of a table in row order that are present and, where asked, active. */
  function Listed(tenants: map<nat, Ledger>, rows: seq<nat>, activeOnly: bool): (ids: seq<nat>)
    requires forall t :: t in rows ==> t in tenants
    ensures forall t :: t in ids <==> t in rows && tenants[t].present && (activeOnly ==> tenants[t].active)
  {
    if rows == [] then []
    else
      var n := |rows| - 1;
      var t := rows[n];
      Listed(tenants, rows[..n], activeOnly) + (if tenants[t].present && (activeOnly ==> tenants[t].active) then [t] else [])
  }

  lemma {:induction false} ListedDistinct(tenants: map<nat, Ledger>, rows: seq<nat>, activeOnly: bool)
    requires (forall t :: t in rows ==> t in tenants) && forall i, j :: 0 <= i < j < |rows| ==> rows[i] != rows[j]
    ensures forall i, j :: 0 <= i < j < |Listed(tenants, rows, activeOnly)| ==>
              Listed(tenants, rows, activeOnly)[i] != Listed(tenants, rows, activeOnly)[j]
  {
    if rows != [] {
      var n := |rows| - 1;
      ListedDistinct(tenants, rows[..n], activeOnly);
      assert rows[n] !in rows[..n];
      var before := Listed(tenants, rows[..n], activeOnly);
      assert forall i :: 0 <= i < |before| ==> before[i] in before;
    }
  }

  /** The tenant rows, their invoices, subscriptions and cancellation requests; `rows` is the
      order in which a query without ORDER BY returns the tenants. */
  class Repository {
    var tenants: map<nat, Ledger>
    var rows: seq<nat>

    ghost predicate Valid()
      reads this
    {
      && (forall t :: t in rows <==> t in tenants)
      && (forall i, j :: 0 <= i < j < |rows| ==> rows[i] != rows[j])
    }

    constructor ()
      ensures Valid() && tenants == map[]
    {
      tenants, rows := map[], [];
    }

    /** Signing up adds a tenant. */
    method AddTenant(t: nat, l: Ledger)
      requires Valid() && t !in tenants
      modifies this
      ensures Valid() && tenants == old(tenants)[t := l] && rows == old(rows) + [t]
    {
      tenants, rows := tenants[t := l], rows + [t];
    }

    /** Two invoices of one tenant never agree in kind and period key. */
    method CreateInvoice(t: nat, i: Invoice) returns (error: Option<Error>)
      requires t in tenants
      modifies this`tenants
      ensures var o := Spec.CreateInvoice(old(tenants[t]), i); tenants == old(tenants)[t := o.l] && error == ErrorOf(o)
    {
      var l := tenants[t];
      if HasInvoice(l.invoices, i.kind, i.key) {
        error := Some(UniqueViolation);
      } else {
        tenants := tenants[t := l.(invoices := l.invoices + [i])];
        error := None;
      }
    }

    method UpdateInvoicePaymentStatus(t: nat, id: nat, status: InvoiceStatus, kind: Option<Kind>, retryDate: Option<Date>)
      returns (error: Option<Error>)
      requires t in tenants
      modifies this`tenants
      ensures var o := UpdateInvoice(old(tenants[t]), id, status, kind, retryDate);
        tenants == old(tenants)[t := o.l] && error == ErrorOf(o)
    {
      var l := tenants[t];
      error := None;
      if id < |l.invoices| {
        var row := l.invoices[id];
        row := row.(status := status);
        if kind.Some? {
          row := row.(kind := kind.value);
        }
        if retryDate.Some? {
          row := row.(line := row.line.(retryDate := retryDate));
        }
        if Conflicts(l.invoices, id, row.kind, row.key) {
          error := Some(UniqueViolation);
        } else {
          tenants := tenants[t := l.(invoices := l.invoices[id := row])];
        }
      }
    }

    method UpsertSubscription(t: nat, sub: Subscription)
      requires t in tenants
      modifies this`tenants
      ensures tenants == old(tenants)[t := old(tenants[t]).(sub := sub)]
    {
      tenants := tenants[t := tenants[t].(sub := sub)];
    }

    /** Observed, not stored: the history of the paid-until date. */
    method ObserveCoverage(t: nat, event: Coverage)
      requires t in tenants
      modifies this`tenants
      ensures var l := old(tenants[t]); tenants == old(tenants)[t := l.(coverage := l.coverage + [event])]
    {
      var l := tenants[t];
      tenants := tenants[t := l.(coverage := l.coverage + [event])];
    }

    /** Observed, not stored: the charges of the daily retry. */
    method ObserveCharge(t: nat, charge: Charge)
      requires t in tenants
      modifies this`tenants
      ensures var l := old(tenants[t]); tenants == old(tenants)[t := l.(charges := l.charges + [charge])]
    {
      var l := tenants[t];
      tenants := tenants[t := l.(charges := l.charges + [charge])];
    }

    method SetActive(t: nat, active: bool)
      requires t in tenants
      modifies this`tenants
      ensures tenants == old(tenants)[t := old(tenants[t]).(active := active)]
    {
      tenants := tenants[t := tenants[t].(active := active)];
    }

    /** The invoices and requests go with the tenant; the fields of its ledger keep what they
        last held. */
    method HardDeleteTenant(t: nat) returns (deleted: bool)
      requires t in tenants
      modifies this`tenants
      ensures tenants == old(tenants)[t := old(tenants[t]).(present := false)] && deleted == old(tenants[t].present)
      ensures StoredInvoices(tenants[t]) == [] && StoredRequests(tenants[t]) == []
    {
      deleted := tenants[t].present;
      tenants := tenants[t := tenants[t].(present := false)];
    }

    method CreateCancellationRequest(t: nat, c: Cancellation)
      requires t in tenants
      modifies this`tenants
      ensures var l := old(tenants[t]); tenants == old(tenants)[t := l.(cancellations := l.cancellations + [c])]
    {
      var l := tenants[t];
      tenants := tenants[t := l.(cancellations := l.cancellations + [c])];
    }

    /** Replaces a request of the tenant; the methods below decide with what. */
    method SetRequest(t: nat, id: nat, c: Cancellation)
      requires t in tenants && id < |tenants[t].cancellations|
      modifies this`tenants
      ensures var l := old(tenants[t]); tenants == old(tenants)[t := l.(cancellations := l.cancellations[id := c])]
    {
      var l := tenants[t];
      tenants := tenants[t := l.(cancellations := l.cancellations[id := c])];
    }

    /** Each mark is written only over an empty column; the result tells whether it was. */
    method MarkNoticeTwoDays(t: nat, id: nat, at: Instant) returns (marked: bool)
      requires t in tenants && id < |tenants[t].cancellations|
      modifies this`tenants
      ensures var l := old(tenants[t]); var c := l.cancellations[id];
        && marked == c.noticeTwoDays.None?
        && tenants == (if marked then old(tenants)[t := l.(cancellations := l.cancellations[id := c.(noticeTwoDays := Some(at))])]
                       else old(tenants))
    {
      var c := tenants[t].cancellations[id];
      marked := c.noticeTwoDays.None?;
      if marked {
        SetRequest(t, id, c.(noticeTwoDays := Some(at)));
      }
    }

    method MarkNoticeOneDay(t: nat, id: nat, at: Instant) returns (marked: bool)
      requires t in tenants && id < |tenants[t].cancellations|
      modifies this`tenants
      ensures var l := old(tenants[t]); var c := l.cancellations[id];
        && marked == c.noticeOneDay.None?
        && tenants == (if marked then old(tenants)[t := l.(cancellations := l.cancellations[id := c.(noticeOneDay := Some(at))])]
                       else old(tenants))
    {
      var c := tenants[t].cancellations[id];
      marked := c.noticeOneDay.None?;
      if marked {
        SetRequest(t, id, c.(noticeOneDay := Some(at)));
      }
    }

    method MarkNoticeExpired(t: nat, id: nat, at: Instant) returns (marked: bool)
      requires t in tenants && id < |tenants[t].cancellations|
      modifies this`tenants
      ensures var l := old(tenants[t]); var c := l.cancellations[id];
        && marked == c.noticeExpired.None?
        && tenants == (if marked then old(tenants)[t := l.(cancellations := l.cancellations[id := c.(noticeExpired := Some(at))])]
                       else old(tenants))
    {
      var c := tenants[t].cancellations[id];
      marked := c.noticeExpired.None?;
      if marked {
        SetRequest(t, id, c.(noticeExpired := Some(at)));
      }
    }

    method MarkDeactivated(t: nat, id: nat, at: Instant) returns (marked: bool)
      requires t in tenants && id < |tenants[t].cancellations|
      modifies this`tenants
      ensures var l := old(tenants[t]); var c := l.cancellations[id];
        && marked == c.deactivatedAt.None?
        && tenants == (if marked then old(tenants)[t := l.(cancellations := l.cancellations[id := c.(deactivatedAt := Some(at))])]
                       else old(tenants))
    {
      var c := tenants[t].cancellations[id];
      marked := c.deactivatedAt.None?;
      if marked {
        SetRequest(t, id, c.(deactivatedAt := Some(at)));
      }
    }

    /** Takes back the latest request still in force, if there is one and access has not been cut. */
    method RestoreLatestCancellation(t: nat, at: Instant) returns (restored: bool)
      requires t in tenants
      modifies this`tenants
      ensures var l := old(tenants[t]); var id := LatestInForce(l.cancellations);
        && restored == (id.Some? && l.cancellations[id.value].deactivatedAt.None?)
        && tenants == (if restored
                       then old(tenants)[t := l.(cancellations := l.cancellations[id.value := Restored(l.cancellations[id.value], at)])]
                       else old(tenants))
    {
      var cs := tenants[t].cancellations;
      var id := LatestInForce(cs);
      if id.None? {
        return false;
      }
      restored := cs[id.value].deactivatedAt.None?;
      if restored {
        SetRequest(t, id.value, Restored(cs[id.value], at));
      }
    }
  }

  function Restored(c: Cancellation, at: Instant): Cancellation {
    c.(status := RenewalRestored, cleanupAt := Some(at))
  }

  /** No request still in force was made after the one found, ties going to the later row; and
      where none is found none is in force. */
  lemma {:induction false} LatestInForceIs(cs: seq<Cancellation>, j: nat)
    requires j < |cs| && cs[j].status == DeactivationRequested
    ensures var r := LatestInForce(cs);
      && r.Some? && NotAfter(cs[j].requestedAt, cs[r.value].requestedAt)
      && (r.value < j ==> cs[j].requestedAt != cs[r.value].requestedAt)
  {
    var n := |cs| - 1;
    var best := LatestInForce(cs[..n]);
    if j < n {
      LatestInForceIs(cs[..n], j);
      assert cs[..n][j] == cs[j] && cs[..n][best.value] == cs[best.value];
      NotAfterEither(cs[j].requestedAt, cs[best.value].requestedAt, cs[n].requestedAt);
    } else if best.Some? {
      assert cs[..n][best.value] == cs[best.value];
      NotAfterEither(cs[n].requestedAt, cs[best.value].requestedAt, cs[n].requestedAt);
    }
  }

  lemma NotAfterEither(a: Instant, b: Instant, c: Instant)
    ensures NotAfter(b, c) || NotAfter(c, b)
    ensures NotAfter(a, b) && NotAfter(b, c) ==> NotAfter(a, c)
    ensures NotAfter(a, b) && NotAfter(b, a) ==> a == b
  {
  }

  /** While the latest request of all is in force it is also the latest in force. */
  lemma {:induction false} LatestIsInForce(cs: seq<Cancellation>)
    requires CancellationRequested(cs)
    ensures LatestInForce(cs) == LatestCancellation(cs)
  {
    var n := |cs| - 1;
    var best := LatestCancellation(cs[..n]);
    if LatestCancellation(cs) == best {
      LatestIsInForce(cs[..n]);
    } else {
      NoneLaterInForce(cs[..n], cs[n].requestedAt);
    }
  }

  /** If the latest request was made by `at`, so was the latest in force. */
  lemma {:induction false} NoneLaterInForce(cs: seq<Cancellation>, at: Instant)
    requires var latest := LatestCancellation(cs); latest.Some? ==> NotAfter(cs[latest.value].requestedAt, at)
    ensures var latest := LatestInForce(cs); latest.Some? ==> NotAfter(cs[latest.value].requestedAt, at)
  {
    if cs != [] {
      var n := |cs| - 1;
      var best := LatestCancellation(cs[..n]);
      if best.Some? && LatestCancellation(cs) == Some(n) {
        NotAfterTransitive(cs[best.value].requestedAt, cs[n].requestedAt, at);
      }
      if best.Some? {
        assert cs[..n][best.value] == cs[best.value];
      }
      NoneLaterInForce(cs[..n], at);
    }
  }
}
