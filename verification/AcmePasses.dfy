/** What one pass over the ACME issuer guarantees, and what a second pass still does. */
module AcmePasses {
  import opened Base
  import opened AcmeIssuer

  function PublishedAll(certs: seq<Cert>, issuer: Issuer): seq<Cert> {
    PublishedUpTo(certs, issuer, |certs|)
  }

  ghost predicate FullDomainsRight(issuer: Issuer) {
    forall d :: d in issuer.configs ==> issuer.configs[d].fullDomain == ChallengeName(issuer.configs[d], issuer.baseAcmeDomain)
  }

  lemma {:induction false} WantedMember(certs: seq<Cert>, d: string)
    ensures d in Wanted(certs) <==> exists cert :: cert in certs && d in DomainsOf(cert)
  {
    if certs != [] {
      var init, last := certs[..|certs| - 1], certs[|certs| - 1];
      WantedMember(init, d);
      assert certs == init + [last];
    }
  }

  /** The domain a certificate's entry stands for: without a leading "*.". */
  ghost predicate StandsFor(entry: string, d: string) {
    entry == "*." + d || (entry == d && !("*." <= entry))
  }

  /** A certificate validated over DNS that names the domain, with or without a wildcard. */
  ghost predicate NamesDomain(cert: Cert, d: string) {
    cert.usesDns01 && exists entry :: entry in cert.domains && StandsFor(entry, d)
  }

  lemma DomainsMean(cert: Cert, d: string)
    ensures d in DomainsOf(cert) <==> NamesDomain(cert, d)
  {
    assert ("*." + d)[2..] == d;
    if entry :| entry in cert.domains && "*." <= entry && entry[2..] == d {
      assert entry == "*." + d;
    }
  }

  /** The issuer serves exactly the domains of DNS01 certificates. */
  lemma WantedMeans(certs: seq<Cert>, d: string)
    ensures d in Wanted(certs) <==> exists cert :: cert in certs && NamesDomain(cert, d)
  {
    WantedMember(certs, d);
    forall cert ensures d in DomainsOf(cert) <==> NamesDomain(cert, d) {
      DomainsMean(cert, d);
    }
  }

  /** In the existing-issuer branch every full domain is right and every surviving credential is kept. */
  lemma ExistingIssuerKeeps(old_: Issuer, new_: Issuer, certs: seq<Cert>, asked: seq<string>,
      replies: seq<Option<Config>>, start: nat, base: string)
    requires PassLeaves(Some(old_), Some(new_), certs, asked, replies, start, base)
    ensures new_.configs.Keys == Wanted(certs) && FullDomainsRight(new_)
    ensures forall d :: d in old_.configs && d in Wanted(certs) ==>
      new_.configs[d] == old_.configs[d].(fullDomain := new_.configs[d].fullDomain)
  {
    forall d | d in new_.configs
      ensures new_.configs[d].fullDomain == ChallengeName(new_.configs[d], new_.baseAcmeDomain)
      ensures d in old_.configs ==> new_.configs[d] == old_.configs[d].(fullDomain := new_.configs[d].fullDomain)
    {
      assert SyncedAt(old_.configs, new_.configs, asked, replies, start, base, d);
    }
  }

  /** Entries of domains a certificate does not name (any more) stay in its status. */
  lemma OldEntriesStay(certs: seq<Cert>, issuer: Issuer, i: nat, d: string)
    requires i < |certs| && d !in DomainsOf(certs[i])
    ensures var after := PublishedAll(certs, issuer)[i];
      (d in after.challenges <==> d in certs[i].challenges)
      && (d in after.challenges ==> after.challenges[d] == certs[i].challenges[d])
  {
  }

  // ---- do the statuses name what the issuer is configured with? ----

  /** Every certificate's status names, for each of its domains, the full domain in the issuer's config. */
  ghost predicate StatusesAgree(certs: seq<Cert>, issuer: Issuer) {
    forall i, d :: 0 <= i < |certs| && d in DomainsOf(certs[i]) ==> StatusAgreesAt(certs[i], issuer, d)
  }

  ghost predicate StatusAgreesAt(cert: Cert, issuer: Issuer, d: string) {
    d in issuer.configs && d in cert.challenges && cert.challenges[d] == issuer.configs[d].fullDomain
  }

  lemma PublishedName(certs: seq<Cert>, issuer: Issuer, i: nat, d: string)
    requires i < |certs| && d in DomainsOf(certs[i]) && issuer.configs.Keys == Wanted(certs)
    ensures d in issuer.configs
    ensures StatusAgreesAt(PublishedAll(certs, issuer)[i], issuer, d)
      <==> issuer.configs[d].fullDomain == issuer.configs[d].subDomain + "." + issuer.baseAcmeDomain
  {
    assert certs[i] in certs;
    WantedMember(certs, d);
  }

  /**
   Publishing changes nothing of a certificate but its challenges; there it enters, for each domain the certificate
   names, the configured subdomain under the issuer's base domain, and leaves the other entries.
   */
  lemma PublishingMeans(certs: seq<Cert>, issuer: Issuer, i: nat, d: string)
    requires i < |certs| && issuer.configs.Keys == Wanted(certs)
    ensures var before, after := certs[i], PublishedAll(certs, issuer)[i];
      && after == before.(challenges := after.challenges)
      && (NamesDomain(before, d) ==>
        && d in issuer.configs && d in after.challenges
        && after.challenges[d] == issuer.configs[d].subDomain + "." + issuer.baseAcmeDomain)
      && (!NamesDomain(before, d) ==>
        && (d in after.challenges <==> d in before.challenges)
        && (d in after.challenges ==> after.challenges[d] == before.challenges[d]))
  {
    DomainsMean(certs[i], d);
    if d in DomainsOf(certs[i]) {
      assert certs[i] in certs;
      WantedMember(certs, d);
    }
  }

  lemma SameDomains(certs: seq<Cert>, issuer: Issuer, i: nat)
    requires i < |certs|
    ensures DomainsOf(PublishedAll(certs, issuer)[i]) == DomainsOf(certs[i])
  {
  }

  /** After a pass over an existing issuer every status agrees with every config. */
  lemma ExistingPassAgrees(old_: Issuer, new_: Issuer, certs: seq<Cert>, asked: seq<string>,
      replies: seq<Option<Config>>, start: nat, base: string)
    requires PassLeaves(Some(old_), Some(new_), certs, asked, replies, start, base)
    ensures StatusesAgree(PublishedAll(certs, new_), new_)
  {
    ExistingIssuerKeeps(old_, new_, certs, asked, replies, start, base);
    var after := PublishedAll(certs, new_);
    forall i, d | 0 <= i < |after| && d in DomainsOf(after[i]) ensures StatusAgreesAt(after[i], new_, d) {
      SameDomains(certs, new_, i);
      PublishedName(certs, new_, i, d);
    }
  }

  /** The server composed the full domain from its own subdomain and the base that is published. */
  ghost predicate RightReply(replies: seq<Option<Config>>, n: nat, base: string) {
    n < |replies| && replies[n].Some? && replies[n].value.fullDomain == replies[n].value.subDomain + "." + base
  }

  ghost predicate LastRepliesRight(asked: seq<string>, replies: seq<Option<Config>>, start: nat, base: string) {
    forall d, k :: LastAt(asked, d, k) ==> RightReply(replies, start + k, base)
  }

  lemma LaterIsInRest(domains: seq<string>, j: nat, k: nat)
    ensures j < k < |domains| ==> domains[k] in domains[j + 1..]
  {
    if j < k < |domains| {
      assert domains[j + 1..][k - j - 1] == domains[k];
    }
  }

  lemma LastIsUnique(domains: seq<string>, d: string, j: nat, k: nat)
    requires LastAt(domains, d, j) && LastAt(domains, d, k)
    ensures j == k
  {
    LaterIsInRest(domains, j, k);
    LaterIsInRest(domains, k, j);
  }

  lemma GrantedByLast(configs: map<string, Config>, asked: seq<string>, replies: seq<Option<Config>>, start: nat,
      d: string, k: nat)
    requires Granted(configs, asked, replies, start) && LastAt(asked, d, k)
    ensures d in configs && ReplyAt(replies, start + k) == Some(configs[d])
  {
    assert asked[k] in asked && GrantedAt(configs, asked, replies, start, d);
    var j: nat :| LastAt(asked, d, j) && ReplyAt(replies, start + j) == Some(configs[d]);
    LastIsUnique(asked, d, j, k);
  }

  /**
   After the pass that creates the issuer every status agrees with every config if and only if, for each domain, the
   server's last reply carries the full domain made of its own subdomain and the base that is published.
   */
  lemma CreatedPassAgreesIff(certs: seq<Cert>, issuer: Issuer, asked: seq<string>,
      replies: seq<Option<Config>>, start: nat, base: string)
    requires PassLeaves(None, Some(issuer), certs, asked, replies, start, base) && Asks(asked, certs, {})
    ensures StatusesAgree(PublishedAll(certs, issuer), issuer) <==> LastRepliesRight(asked, replies, start, base)
  {
    var after := PublishedAll(certs, issuer);
    if StatusesAgree(after, issuer) {
      forall d, k | LastAt(asked, d, k) ensures RightReply(replies, start + k, base) {
        GrantedByLast(issuer.configs, asked, replies, start, d, k);
        WantedMember(certs, d);
        var cert :| cert in certs && d in DomainsOf(cert);
        var i :| 0 <= i < |certs| && certs[i] == cert;
        SameDomains(certs, issuer, i);
        PublishedName(certs, issuer, i, d);
        assert StatusAgreesAt(after[i], issuer, d);
      }
    }
    if LastRepliesRight(asked, replies, start, base) {
      forall i, d | 0 <= i < |after| && d in DomainsOf(after[i]) ensures StatusAgreesAt(after[i], issuer, d) {
        SameDomains(certs, issuer, i);
        PublishedName(certs, issuer, i, d);
        assert GrantedAt(issuer.configs, asked, replies, start, d);
        var k: nat :| LastAt(asked, d, k) && ReplyAt(replies, start + k) == Some(issuer.configs[d]);
        assert RightReply(replies, start + k, base);
      }
    }
  }

  // ---- a second pass ----

  lemma {:induction false} SameDomainsWanted(a: seq<Cert>, b: seq<Cert>)
    requires |a| == |b| && forall i :: 0 <= i < |a| ==> DomainsOf(a[i]) == DomainsOf(b[i])
    ensures Wanted(a) == Wanted(b)
  {
    if a != [] {
      SameDomainsWanted(a[..|a| - 1], b[..|b| - 1]);
    }
  }

  lemma PublishingKeepsDomains(certs: seq<Cert>, issuer: Issuer)
    ensures Wanted(PublishedAll(certs, issuer)) == Wanted(certs)
  {
    SameDomainsWanted(certs, PublishedAll(certs, issuer));
  }

  lemma PublishedTwice(cert: Cert, issuer: Issuer)
    ensures Published(Published(cert, issuer), issuer) == Published(cert, issuer)
  {
    if cert.usesDns01 {
      var names := Names(issuer, Trimmed(cert.domains));
      assert cert.challenges + names + names == cert.challenges + names;
    }
  }

  /**
   After a pass - whether it created the issuer or not - a second one registers nothing, keeps every credential and
   only sets full domains; when those are right already it changes neither the issuer nor any status.
   */
  lemma SecondPassIsIdle(old_: Option<Issuer>, first: Issuer, second: Issuer, certs: seq<Cert>,
      asked: seq<string>, askedAgain: seq<string>, replies: seq<Option<Config>>, start: nat, startAgain: nat, base: string)
    requires PassLeaves(old_, Some(first), certs, asked, replies, start, base)
    requires Asks(askedAgain, PublishedAll(certs, first), first.configs.Keys)
    requires PassLeaves(Some(first), Some(second), PublishedAll(certs, first), askedAgain, replies, startAgain, base)
    ensures askedAgain == [] && first.configs.Keys == Wanted(certs) == second.configs.Keys
    ensures second.configs == FullDomains(first.configs, base)
    ensures FullDomainsRight(first) ==> second == first
    ensures FullDomainsRight(first) ==> PublishedAll(PublishedAll(certs, first), second) == PublishedAll(certs, first)
  {
    PublishingKeepsDomains(certs, first);
    AsksNone(askedAgain, PublishedAll(certs, first), first.configs.Keys);
    OnlyFullDomains(first.configs, second.configs, Wanted(certs), askedAgain, replies, startAgain, base);
    if FullDomainsRight(first) {
      assert FullDomains(first.configs, base) == first.configs;
      PublishedAllTwice(certs, first);
    }
  }

  lemma AsksNone(asked: seq<string>, certs: seq<Cert>, known: set<string>)
    requires Asks(asked, certs, known) && known == Wanted(certs)
    ensures asked == []
  {
    if asked != [] { HasFirst(asked); }
  }

  lemma HasFirst(list: seq<string>)
    requires list != []
    ensures exists d :: d in list
  {
    assert list[0] in list;
  }

  lemma OnlyFullDomains(old_: map<string, Config>, new_: map<string, Config>, wanted: set<string>, asked: seq<string>,
      replies: seq<Option<Config>>, start: nat, base: string)
    requires Synced(old_, new_, wanted, asked, replies, start, base) && old_.Keys == wanted
    ensures new_ == FullDomains(old_, base)
  {
    forall d | d in new_ ensures new_[d] == WithFullDomain(old_[d], base) {
      assert SyncedAt(old_, new_, asked, replies, start, base, d);
    }
  }

  lemma PublishedAllTwice(certs: seq<Cert>, issuer: Issuer)
    ensures PublishedAll(PublishedAll(certs, issuer), issuer) == PublishedAll(certs, issuer)
  {
    var once := PublishedAll(certs, issuer);
    forall i | 0 <= i < |certs| ensures PublishedAll(once, issuer)[i] == once[i] {
      PublishedTwice(certs[i], issuer);
    }
  }

  // ---- how often the server is asked ----

  ghost predicate SharedAt(certs: seq<Cert>, known: set<string>, i: int, j: int, d: string) {
    0 <= i < j < |certs| && d in DomainsOf(certs[i]) && d in DomainsOf(certs[j]) && d !in known
  }

  ghost predicate SharedNew(certs: seq<Cert>, known: set<string>) {
    exists i, j, d :: SharedAt(certs, known, i, j, d)
  }

  /** Every new domain is registered at least once, and exactly once just when no two certificates share a new one. */
  lemma {:induction false} RegisteredOnceIff(certs: seq<Cert>, known: set<string>)
    ensures Requests(certs, known) >= |Wanted(certs) - known|
    ensures Requests(certs, known) == |Wanted(certs) - known| <==> !SharedNew(certs, known)
  {
    if certs == [] {
      assert Wanted(certs) - known == {};
    } else {
      var init, last := certs[..|certs| - 1], certs[|certs| - 1];
      RegisteredOnceIff(init, known);
      var before, here := Wanted(init) - known, DomainsOf(last) - known;
      assert Wanted(certs) - known == before + here;
      UnionCount(before, here);
      SharedStep(certs, known);
    }
  }

  lemma UnionCount(a: set<string>, b: set<string>)
    ensures |a + b| == |a| + |b| - |a * b|
    ensures |a * b| == 0 <==> a * b == {}
  {
  }

  lemma SharedStep(certs: seq<Cert>, known: set<string>)
    requires certs != []
    ensures SharedNew(certs, known) <==>
      || SharedNew(certs[..|certs| - 1], known)
      || (Wanted(certs[..|certs| - 1]) - known) * (DomainsOf(certs[|certs| - 1]) - known) != {}
  {
    var init, last := certs[..|certs| - 1], certs[|certs| - 1];
    if i, j, d :| SharedAt(certs, known, i, j, d) {
      SharedBefore(init, last, known, i, j, d);
      assert init + [last] == certs;
    }
    if i, j, d :| SharedAt(init, known, i, j, d) {
      assert SharedAt(certs, known, i, j, d);
    }
    if d :| d in (Wanted(init) - known) * (DomainsOf(last) - known) {
      SharedWithLast(init, last, known, d);
      assert init + [last] == certs;
    }
  }

  lemma SharedBefore(init: seq<Cert>, last: Cert, known: set<string>, i: int, j: int, d: string)
    requires SharedAt(init + [last], known, i, j, d)
    ensures SharedAt(init, known, i, j, d) || d in (Wanted(init) - known) * (DomainsOf(last) - known)
  {
    assert (init + [last])[i] == init[i] && init[i] in init;
    WantedMember(init, d);
  }

  lemma SharedWithLast(init: seq<Cert>, last: Cert, known: set<string>, d: string)
    requires d in Wanted(init) && d in DomainsOf(last) && d !in known
    ensures SharedNew(init + [last], known)
  {
    WantedMember(init, d);
    var cert :| cert in init && d in DomainsOf(cert);
    var i :| 0 <= i < |init| && init[i] == cert;
    assert SharedAt(init + [last], known, i, |init|, d);
  }
}
