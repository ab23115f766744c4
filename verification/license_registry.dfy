/** At most one license per asset id, its creation, and the two guarded
    single-direction toggles of its active flag. */
module LicenseRegistry {
  import opened Records
  import opened Storage

  /** `view_license`: the stored license, or the inactive sentinel on a miss. */
  function ViewLicense(s: Store, id: nat): License {
    if id in s.licenses then s.licenses[id] else LicenseSentinel
  }

  /** The terms of a license, i.e. everything but its active flag. */
  predicate SameTerms(a: License, b: License) {
    && a.licensee == b.licensee
    && a.usageRights == b.usageRights
    && a.expirationTime == b.expirationTime
    && a.royaltyPercentage == b.royaltyPercentage
  }

  /** `create_license`: writes a fresh active license for `id` whatever was
      stored before. The id need not name an existing asset. */
  function CreateLicense(s: Store, id: nat, licensee: string, usageRights: string,
                         royaltyPercentage: u32, expirationTime: u64): (r: Store)
    ensures ViewLicense(r, id) == License(licensee, usageRights, expirationTime, royaltyPercentage, true)
    ensures forall j :: j != id ==> ViewLicense(r, j) == ViewLicense(s, j)
    ensures r.licenses.Keys == s.licenses.Keys + {id}
    ensures r.assets == s.assets && r.counter == s.counter
  {
    var license := License(licensee, usageRights, expirationTime, royaltyPercentage, true);
    s.(licenses := s.licenses[id := license])
  }

  /** Persists the license currently seen under `id` (the sentinel on a
      miss) with its active flag set to `active`. */
  function WriteStatus(s: Store, id: nat, active: bool): (r: Store)
    ensures ViewLicense(r, id).isActive == active
    ensures SameTerms(ViewLicense(r, id), ViewLicense(s, id))
    ensures forall j :: j != id ==> ViewLicense(r, j) == ViewLicense(s, j)
    ensures r.licenses.Keys == s.licenses.Keys + {id}
    ensures r.assets == s.assets && r.counter == s.counter
  {
    s.(licenses := s.licenses[id := ViewLicense(s, id).(isActive := active)])
  }

  /** `approve_license`: aborts when the license already is active;
      otherwise persists it, terms untouched, as active. An id without a
      license reads the sentinel, so approving it stores an active copy of
      the sentinel. */
  function ApproveLicense(s: Store, id: nat): (r: Result<Store>)
    ensures r.Aborted? <==> ViewLicense(s, id).isActive
    ensures r.Aborted? ==> r.reason == AlreadyActive
    ensures r.Ok? ==> ViewLicense(r.value, id) == ViewLicense(s, id).(isActive := true)
    ensures r.Ok? ==> id in r.value.licenses
    ensures r.Ok? ==> forall j :: j != id ==> ViewLicense(r.value, j) == ViewLicense(s, j)
    ensures r.Ok? ==> r.value.assets == s.assets && r.value.counter == s.counter
  {
    if !ViewLicense(s, id).isActive then Ok(WriteStatus(s, id, true))
    else Aborted(AlreadyActive)
  }

  /** `expire_license`: aborts when the license already is inactive, which
      includes an id that never had a license; otherwise persists it, terms
      untouched, as inactive. */
  function ExpireLicense(s: Store, id: nat): (r: Result<Store>)
    ensures r.Aborted? <==> !ViewLicense(s, id).isActive
    ensures r.Aborted? ==> r.reason == AlreadyInactive
    ensures r.Ok? ==> ViewLicense(r.value, id) == ViewLicense(s, id).(isActive := false)
    ensures r.Ok? ==> r.value.licenses.Keys == s.licenses.Keys
    ensures r.Ok? ==> forall j :: j != id ==> ViewLicense(r.value, j) == ViewLicense(s, j)
    ensures r.Ok? ==> r.value.assets == s.assets && r.value.counter == s.counter
  {
    if ViewLicense(s, id).isActive then Ok(WriteStatus(s, id, false))
    else Aborted(AlreadyInactive)
  }

  /** Expiring an existing active license and approving it again gives back
      exactly the store it started from. */
  lemma ExpireThenApproveRestores(s: Store, id: nat)
    requires id in s.licenses && s.licenses[id].isActive
    ensures ExpireLicense(s, id).Ok?
    ensures ApproveLicense(ExpireLicense(s, id).value, id) == Ok(s)
  {
    var s1 := ExpireLicense(s, id).value;
    var s2 := ApproveLicense(s1, id).value;
    assert s2.licenses == s.licenses;
  }

  /** Approving an existing inactive license and expiring it again gives
      back exactly the store it started from. */
  lemma ApproveThenExpireRestores(s: Store, id: nat)
    requires id in s.licenses && !s.licenses[id].isActive
    ensures ApproveLicense(s, id).Ok?
    ensures ExpireLicense(ApproveLicense(s, id).value, id) == Ok(s)
  {
    var s1 := ApproveLicense(s, id).value;
    var s2 := ExpireLicense(s1, id).value;
    assert s2.licenses == s.licenses;
  }

  /** Approving an id that never had a license does not restore after an
      expiry: the sentinel record stays stored. */
  lemma ApproveUnlicensedPersistsSentinel(s: Store, id: nat)
    requires id !in s.licenses
    ensures ApproveLicense(s, id).Ok?
    ensures ApproveLicense(s, id).value.licenses[id] == LicenseSentinel.(isActive := true)
    ensures ExpireLicense(ApproveLicense(s, id).value, id).Ok?
    ensures ExpireLicense(ApproveLicense(s, id).value, id).value.licenses[id] == LicenseSentinel
    ensures ExpireLicense(ApproveLicense(s, id).value, id).value != s
  {
  }

  /** No toggle succeeds twice in a row, and a just-created license cannot
      be approved. */
  lemma RepeatedTransitionsAbort(s: Store, id: nat, licensee: string, usageRights: string,
                                 royaltyPercentage: u32, expirationTime: u64)
    ensures ApproveLicense(s, id).Ok? ==> ApproveLicense(ApproveLicense(s, id).value, id) == Aborted(AlreadyActive)
    ensures ExpireLicense(s, id).Ok? ==> ExpireLicense(ExpireLicense(s, id).value, id) == Aborted(AlreadyInactive)
    ensures ApproveLicense(CreateLicense(s, id, licensee, usageRights, royaltyPercentage, expirationTime), id)
            == Aborted(AlreadyActive)
  {
  }

  /** Creating a license then expiring and approving it shows the created
      terms, active again. */
  lemma CreateExpireApprove(s: Store, id: nat, licensee: string, usageRights: string,
                            royaltyPercentage: u32, expirationTime: u64)
    ensures var s1 := CreateLicense(s, id, licensee, usageRights, royaltyPercentage, expirationTime);
            && ExpireLicense(s1, id).Ok?
            && ApproveLicense(ExpireLicense(s1, id).value, id).Ok?
            && ViewLicense(ApproveLicense(ExpireLicense(s1, id).value, id).value, id)
               == License(licensee, usageRights, expirationTime, royaltyPercentage, true)
  {
  }
}
