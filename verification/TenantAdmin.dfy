/** The platform administrator's operations on tenants, statement by statement on the tables. */
module TenantAdmin {
  import opened Options
  import opened Instants
  import opened Spec = Ledger
  import opened LedgerRuns
  import opened BillingRepository

  predicate Exists(tenants: map<nat, Spec.Ledger>, t: nat) {
    t in tenants && tenants[t].present
  }

  class Admin {
    const repo: Repository

    constructor (repo: Repository)
      ensures this.repo == repo
    {
      this.repo := repo;
    }

    /** Nothing is asked of the stamp, and the clean-up mark is not set. */
    method RestoreCancelledTenant(t: nat, at: Instant) returns (found: bool, error: Option<Error>)
      modifies repo`tenants
      ensures found <==> Exists(old(repo.tenants), t)
      ensures found ==> var o := Apply(old(repo.tenants[t]), RestoreByAdmin(at));
        repo.tenants == old(repo.tenants)[t := o.l] && error == ErrorOf(o)
      ensures !found ==> repo.tenants == old(repo.tenants)
    {
      if !Exists(repo.tenants, t) {
        return false, None;
      }
      if repo.tenants[t].active {
        return true, Some(ValueError);
      }
      var latest := LatestCancellation(repo.tenants[t].cancellations);
      if latest.None? || repo.tenants[t].cancellations[latest.value].status != DeactivationRequested {
        return true, Some(ValueError);
      }
      repo.SetActive(t, true);
      var c := repo.tenants[t].cancellations[latest.value];
      repo.SetRequest(t, latest.value, c.(status := RestoredByAdmin));
      return true, None;
    }

    method ActivateInactiveTenant(t: nat, at: Instant) returns (found: bool, error: Option<Error>)
      modifies repo`tenants
      ensures found <==> Exists(old(repo.tenants), t)
      ensures found ==> var o := Apply(old(repo.tenants[t]), ActivateByAdmin(at));
        repo.tenants == old(repo.tenants)[t := o.l] && error == ErrorOf(o)
      ensures !found ==> repo.tenants == old(repo.tenants)
    {
      if !Exists(repo.tenants, t) {
        return false, None;
      }
      if repo.tenants[t].active {
        return true, Some(ValueError);
      }
      var latest := LatestCancellation(repo.tenants[t].cancellations);
      if latest.Some? && repo.tenants[t].cancellations[latest.value].status == DeactivationRequested {
        return true, Some(ValueError);
      }
      repo.SetActive(t, true);
      return true, None;
    }

    method DeactivateActiveTenant(t: nat, at: Instant) returns (found: bool, error: Option<Error>)
      modifies repo`tenants
      ensures found <==> Exists(old(repo.tenants), t)
      ensures found ==> var o := Apply(old(repo.tenants[t]), DeactivateByAdmin(at));
        repo.tenants == old(repo.tenants)[t := o.l] && error == ErrorOf(o)
      ensures !found ==> repo.tenants == old(repo.tenants)
    {
      if !Exists(repo.tenants, t) {
        return false, None;
      }
      if !repo.tenants[t].active {
        return true, Some(ValueError);
      }
      var latest := LatestCancellation(repo.tenants[t].cancellations);
      if latest.Some? && repo.tenants[t].cancellations[latest.value].status == DeactivationRequested {
        return true, Some(ValueError);
      }
      repo.SetActive(t, false);
      return true, None;
    }

    /** The one condition is that the tenant is inactive. */
    method PermanentlyDeleteCancelledTenant(t: nat, at: Instant) returns (found: bool, error: Option<Error>)
      modifies repo`tenants
      ensures found <==> Exists(old(repo.tenants), t)
      ensures found ==> var o := Apply(old(repo.tenants[t]), DeleteByAdmin(at));
        repo.tenants == old(repo.tenants)[t := o.l] && error == ErrorOf(o)
      ensures !found ==> repo.tenants == old(repo.tenants)
    {
      if !Exists(repo.tenants, t) {
        return false, None;
      }
      if repo.tenants[t].active {
        return true, Some(ValueError);
      }
      var _ := repo.HardDeleteTenant(t);
      return true, None;
    }
  }
}
