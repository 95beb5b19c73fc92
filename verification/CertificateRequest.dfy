/**
What an issuance task captures from the configuration, and which configuration changes make a
captured request stale (crates/gaterust-proxy/src/runtime.rs).
*/
module CertificateRequests {
  import opened Options
  import opened ProxyConfigs

  function FindCertificate(cs: seq<CertificateConfig>, id: string): Option<CertificateConfig> {
    if cs == [] then None else if cs[0].id == id then Some(cs[0]) else FindCertificate(cs[1..], id)
  }

  function FindAcme(accounts: seq<AcmeAccount>, id: string): Option<AcmeAccount> {
    if accounts == [] then None else if accounts[0].id == id then Some(accounts[0]) else FindAcme(accounts[1..], id)
  }

  function FindDns(accounts: seq<DnsAccount>, id: string): Option<DnsAccount> {
    if accounts == [] then None else if accounts[0].id == id then Some(accounts[0]) else FindDns(accounts[1..], id)
  }

  lemma {:induction false} FindCertificateFinds(cs: seq<CertificateConfig>, id: string)
    ensures FindCertificate(cs, id).Some? <==> id in CertificateIds(cs)
    ensures FindCertificate(cs, id).Some? ==> FindCertificate(cs, id).value in cs && FindCertificate(cs, id).value.id == id
  {
    if cs != [] {
      FindCertificateFinds(cs[1..], id);
      assert cs == [cs[0]] + cs[1..];
    }
  }

  lemma {:induction false} FindAcmeFinds(accounts: seq<AcmeAccount>, id: string)
    requires exists account <- accounts :: account.id == id
    ensures FindAcme(accounts, id).Some?
  {
    if accounts[0].id != id {
      assert accounts == [accounts[0]] + accounts[1..];
      FindAcmeFinds(accounts[1..], id);
    }
  }

  lemma {:induction false} FindDnsFinds(accounts: seq<DnsAccount>, id: string)
    requires exists account <- accounts :: account.id == id
    ensures FindDns(accounts, id).Some?
  {
    if accounts[0].id != id {
      assert accounts == [accounts[0]] + accounts[1..];
      FindDnsFinds(accounts[1..], id);
    }
  }

  lemma FindIsTheOne(cs: seq<CertificateConfig>, c: CertificateConfig)
    requires IdsUnique(cs) && c in cs
    ensures FindCertificate(cs, c.id) == Some(c)
  {
    FindCertificateFinds(cs, c.id);
    var found := FindCertificate(cs, c.id).value;
    var i :| 0 <= i < |cs| && cs[i] == c;
    var j :| 0 <= j < |cs| && cs[j] == found;
  }

  // ---- The part of the configuration a certificate's task depends on ----

  /** Accounts appear without their display names, which no task uses. */
  datatype Runtime = Runtime(
    cacheDir: string, domains: seq<string>, acmeAccountId: string, validation: Option<Validation>,
    migrationError: Option<string>, account: Option<AcmeAccount>, dnsAccount: Option<DnsAccount>)

  function NamelessAcme(account: Option<AcmeAccount>): Option<AcmeAccount> {
    match account
    case Some(a) => Some(a.(name := ""))
    case None => None
  }

  function NamelessDns(account: Option<DnsAccount>): Option<DnsAccount> {
    match account
    case Some(a) => Some(a.(name := ""))
    case None => None
  }

  function DnsAccountFor(config: ProxyConfig, c: CertificateConfig): Option<DnsAccount> {
    match c.validation
    case Some(ByDnsAccount(id)) => FindDns(config.dnsAccounts, id)
    case _ => None
  }

  function RuntimeOf(config: ProxyConfig, c: CertificateConfig): Runtime {
    Runtime(config.cacheDir, c.domains, c.acmeAccountId, c.validation, c.migrationError,
            NamelessAcme(FindAcme(config.acmeAccounts, c.acmeAccountId)), NamelessDns(DnsAccountFor(config, c)))
  }

  function CertificateIn(config: Option<ProxyConfig>, id: string): Option<CertificateConfig> {
    if config.Some? then FindCertificate(config.value.certificates, id) else None
  }

  function RuntimeIn(config: Option<ProxyConfig>, id: string): Option<Runtime> {
    if CertificateIn(config, id).Some? then Some(RuntimeOf(config.value, CertificateIn(config, id).value)) else None
  }

  predicate AutoRenewed(config: Option<ProxyConfig>, id: string) {
    CertificateIn(config, id).Some? && CertificateIn(config, id).value.autoRenew
  }

  // ---- What the code compares ----

  predicate SameAcmeAccount(current: Option<AcmeAccount>, next: Option<AcmeAccount>) {
    match (current, next)
    case (Some(a), Some(b)) =>
      && a.id == b.id && a.provider == b.provider && a.environment == b.environment && a.email == b.email
      && a.keyAlgorithm == b.keyAlgorithm && a.eabKeyId == b.eabKeyId && a.eabHmacKey == b.eabHmacKey
    case (None, None) => true
    case _ => false
  }

  predicate SameDnsAccount(current: Option<DnsAccount>, next: Option<DnsAccount>) {
    match (current, next)
    case (Some(a), Some(b)) =>
      && a.id == b.id && a.provider == b.provider
      && a.apiToken == b.apiToken && a.accessKey == b.accessKey && a.secretKey == b.secretKey
    case (None, None) => true
    case _ => false
  }

  predicate RuntimeChanged(current: ProxyConfig, next: ProxyConfig, was: CertificateConfig, c: CertificateConfig) {
    || current.cacheDir != next.cacheDir
    || was.domains != c.domains
    || was.acmeAccountId != c.acmeAccountId
    || was.validation != c.validation
    || was.migrationError != c.migrationError
    || !SameAcmeAccount(FindAcme(current.acmeAccounts, was.acmeAccountId), FindAcme(next.acmeAccounts, c.acmeAccountId))
    || !SameDnsAccount(DnsAccountFor(current, was), DnsAccountFor(next, c))
  }

  predicate NeedsReload(current: Option<ProxyConfig>, next: ProxyConfig, c: CertificateConfig) {
    match CertificateIn(current, c.id)
    case None => true
    case Some(was) => RuntimeChanged(current.value, next, was, c)
  }

  /** `certificates_requiring_reload`. */
  function RequiringReload(current: Option<ProxyConfig>, next: ProxyConfig): set<string> {
    set c | c in next.certificates && NeedsReload(current, next, c) :: c.id
  }

  /** The field-by-field comparison reloads a certificate exactly when something its tasks depend
      on is different from before. */
  lemma ReloadsExactly(current: Option<ProxyConfig>, next: ProxyConfig, id: string)
    requires IdsUnique(next.certificates)
    ensures id in RequiringReload(current, next) <==>
              RuntimeIn(Some(next), id).Some? && RuntimeIn(current, id) != RuntimeIn(Some(next), id)
  {
    FindCertificateFinds(next.certificates, id);
    forall c | c in next.certificates && c.id == id
      ensures CertificateIn(Some(next), id) == Some(c)
      ensures NeedsReload(current, next, c) <==> RuntimeIn(current, id) != Some(RuntimeOf(next, c))
    {
      FindIsTheOne(next.certificates, c);
      if CertificateIn(current, id).Some? {
        ChangedExactly(current.value, next, CertificateIn(current, id).value, c);
      }
    }
  }

  lemma ChangedExactly(current: ProxyConfig, next: ProxyConfig, was: CertificateConfig, c: CertificateConfig)
    ensures RuntimeChanged(current, next, was, c) <==> RuntimeOf(current, was) != RuntimeOf(next, c)
  {
    SameAcmeExactly(FindAcme(current.acmeAccounts, was.acmeAccountId), FindAcme(next.acmeAccounts, c.acmeAccountId));
    SameDnsExactly(DnsAccountFor(current, was), DnsAccountFor(next, c));
  }

  lemma SameAcmeExactly(a: Option<AcmeAccount>, b: Option<AcmeAccount>)
    ensures SameAcmeAccount(a, b) <==> NamelessAcme(a) == NamelessAcme(b)
  {
  }

  lemma SameDnsExactly(a: Option<DnsAccount>, b: Option<DnsAccount>)
    ensures SameDnsAccount(a, b) <==> NamelessDns(a) == NamelessDns(b)
  {
  }

  // ---- Requests ----

  datatype Request = Request(cacheDir: string, certificate: CertificateConfig, account: AcmeAccount, dnsAccount: Option<DnsAccount>)

  /** Why an operation on a certificate was refused or failed. */
  datatype Problem =
    | Busy | NotApplied | UnknownCertificate | NotMigrated(reason: Option<string>) | NoAcmeAccount | NoDnsAccount
    | NoPermit | NoOrder | NoHolder | Told(text: string)

  datatype Prepared = Ready(request: Request) | Rejected(problem: Problem)

  function Prepare(config: Option<ProxyConfig>, id: string): Prepared {
    if config.None? then Rejected(NotApplied)
    else
      match CertificateIn(config, id)
      case None => Rejected(UnknownCertificate)
      case Some(c) =>
        if c.validation.None? then Rejected(NotMigrated(c.migrationError))
        else
          match FindAcme(config.value.acmeAccounts, c.acmeAccountId)
          case None => Rejected(NoAcmeAccount)
          case Some(account) =>
            if c.validation.value.ByDnsAccount? && DnsAccountFor(config.value, c).None? then Rejected(NoDnsAccount)
            else Ready(Request(config.value.cacheDir, c, account, DnsAccountFor(config.value, c)))
  }

  /** The request was captured from a configuration that says the same as this one. */
  predicate UpToDate(config: Option<ProxyConfig>, id: string, r: Request) {
    && r.certificate.id == id
    && RuntimeIn(config, id) == Some(Runtime(
         r.cacheDir, r.certificate.domains, r.certificate.acmeAccountId, r.certificate.validation,
         r.certificate.migrationError, NamelessAcme(Some(r.account)), NamelessDns(r.dnsAccount)))
  }

  lemma PreparedUpToDate(config: Option<ProxyConfig>, id: string)
    ensures Prepare(config, id).Ready? ==> UpToDate(config, id, Prepare(config, id).request)
  {
    if config.Some? {
      FindCertificateFinds(config.value.certificates, id);
    }
  }

  /** Under a valid configuration only an unknown or a not yet migrated certificate is rejected:
      the account look-ups never fail. */
  lemma RejectedExactly(config: ProxyConfig, id: string)
    requires Valid(config)
    ensures Prepare(Some(config), id) == Rejected(UnknownCertificate) <==> id !in CertificateIds(config.certificates)
    ensures Prepare(Some(config), id).Rejected? && id in CertificateIds(config.certificates) <==>
              CertificateIn(Some(config), id).Some? && CertificateIn(Some(config), id).value.validation.None?
  {
    FindCertificateFinds(config.certificates, id);
    if id in CertificateIds(config.certificates) {
      var c := CertificateIn(Some(config), id).value;
      assert CertificateOk(c, AcmeIds(config), DnsIds(config));
      FindAcmeFinds(config.acmeAccounts, c.acmeAccountId);
      if c.validation.Some? && c.validation.value.ByDnsAccount? {
        FindDnsFinds(config.dnsAccounts, c.validation.value.dnsAccountId);
      }
    }
  }
}
