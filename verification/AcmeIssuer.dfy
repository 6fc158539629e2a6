/**
 The ACME server's companion issuer: every domain of a DNS01 certificate is registered once at the ACME DNS server,
 domains no certificate uses are dropped, and the challenge names are published in the certificates' status.
 */
module AcmeIssuer {
  import opened Base

  datatype Config = Config(username: string, password: string, fullDomain: string, subDomain: string)

  datatype Issuer = Issuer(configs: map<string, Config>, baseAcmeDomain: string)

  /** A certificate; challenges is the map from domain to challenge name in its status. */
  datatype Cert = Cert(name: string, usesDns01: bool, domains: seq<string>, challenges: map<string, string>)

  function TrimWildcard(domain: string): string {
    if "*." <= domain then domain[2..] else domain
  }

  function Trimmed(domains: seq<string>): set<string> {
    set d | d in domains :: TrimWildcard(d)
  }

  function DomainsOf(cert: Cert): set<string> {
    if cert.usesDns01 then Trimmed(cert.domains) else {}
  }

  function Wanted(certs: seq<Cert>): set<string> {
    if certs == [] then {} else Wanted(certs[..|certs| - 1]) + DomainsOf(certs[|certs| - 1])
  }

  /** How often the server is asked: once per certificate and domain that has no config yet. */
  function Requests(certs: seq<Cert>, known: set<string>): nat {
    if certs == [] then 0
    else Requests(certs[..|certs| - 1], known) + |DomainsOf(certs[|certs| - 1]) - known|
  }

  function ChallengeName(config: Config, base: string): string {
    config.subDomain + "." + base
  }

  function WithFullDomain(config: Config, base: string): Config {
    config.(fullDomain := ChallengeName(config, base))
  }

  function Names(issuer: Issuer, domains: set<string>): map<string, string> {
    map d | d in domains && d in issuer.configs :: ChallengeName(issuer.configs[d], issuer.baseAcmeDomain)
  }

  /** A certificate's status once the issuer's configs are published; entries of other domains stay. */
  function Published(cert: Cert, issuer: Issuer): Cert {
    if !cert.usesDns01 then cert else
      cert.(challenges := cert.challenges + Names(issuer, Trimmed(cert.domains)))
  }

  // ---- turning sets into lists and back, as the Go code does with maps ----

  method TrimPrefixOfWildcardDomains(domains: seq<string>) returns (list: seq<string>)
    ensures Enumerates(list, Trimmed(domains))
  {
    var m := {};
    for i := 0 to |domains|
      invariant m == Trimmed(domains[..i])
    {
      var domain := domains[i];
      if "*." <= domain {
        domain := domain[2..];
      }
      TrimmedStep(domains, i);
      m := m + {domain};
    }
    assert domains[..|domains|] == domains;
    list := KeysOf(m);
  }

  lemma TrimmedStep(domains: seq<string>, i: nat)
    requires i < |domains|
    ensures Trimmed(domains[..i + 1]) == Trimmed(domains[..i]) + {TrimWildcard(domains[i])}
  {
    assert domains[..i + 1] == domains[..i] + [domains[i]];
  }

  // ---- what a registration must leave ----

  /** The server's answer to the n-th registration; none when the call fails. */
  function ReplyAt(replies: seq<Option<Config>>, n: nat): Option<Config> {
    if n < |replies| then replies[n] else None
  }

  ghost predicate LastAt(domains: seq<string>, d: string, k: nat) {
    k < |domains| && domains[k] == d && d !in domains[k + 1..]
  }

  /** The config of a domain is the reply to the last registration made for it. */
  ghost predicate GrantedAt(configs: map<string, Config>, domains: seq<string>, replies: seq<Option<Config>>,
      start: nat, d: string)
  {
    d in configs ==> exists k :: LastAt(domains, d, k) && ReplyAt(replies, start + k) == Some(configs[d])
  }

  ghost predicate Granted(configs: map<string, Config>, domains: seq<string>, replies: seq<Option<Config>>, start: nat) {
    && (forall d :: d in configs <==> d in domains)
    && forall d :: GrantedAt(configs, domains, replies, start, d)
  }

  lemma GrantedStep(configs: map<string, Config>, domains: seq<string>, replies: seq<Option<Config>>, start: nat,
      d: string, config: Config)
    requires Granted(configs, domains, replies, start)
    requires ReplyAt(replies, start + |domains|) == Some(config)
    ensures Granted(configs[d := config], domains + [d], replies, start)
  {
    var more, after := domains + [d], configs[d := config];
    forall e ensures GrantedAt(after, more, replies, start, e) {
      assert GrantedAt(configs, domains, replies, start, e);
      if e == d {
        assert LastAt(more, e, |domains|);
      } else if e in configs {
        var k :| LastAt(domains, e, k) && ReplyAt(replies, start + k) == Some(configs[e]);
        assert more[k + 1..] == domains[k + 1..] + [d];
        assert LastAt(more, e, k);
      }
    }
  }

  // ---- the reconciler ----

  class AcmeReconciler {
    var issuer: Option<Issuer>
    var certs: seq<Cert>
    /** Registrations asked of the ACME DNS server so far; the n-th is answered by the n-th reply. */
    var posts: nat
    const replies: seq<Option<Config>>
    /** Writes the API server will still accept. */
    var budget: nat

    constructor (issuer: Option<Issuer>, certs: seq<Cert>, replies: seq<Option<Config>>, budget: nat)
      ensures this.issuer == issuer && this.certs == certs && this.replies == replies
      ensures this.budget == budget && posts == 0
    {
      this.issuer := issuer;
      this.certs := certs;
      this.replies := replies;
      this.budget := budget;
      posts := 0;
    }

    method RegisterAcmeDns(domains: seq<string>) returns (ok: bool, configs: map<string, Config>)
      modifies `posts
      ensures ok ==> posts == old(posts) + |domains| && Granted(configs, domains, replies, old(posts))
      ensures old(posts) <= posts <= old(posts) + |domains|
    {
      configs := map[];
      for i := 0 to |domains|
        invariant posts == old(posts) + i
        invariant Granted(configs, domains[..i], replies, old(posts))
      {
        var reply := ReplyAt(replies, posts);
        posts := posts + 1;
        if reply.None? { return false, map[]; }
        GrantedStep(configs, domains[..i], replies, old(posts), domains[i], reply.value);
        assert domains[..i] + [domains[i]] == domains[..i + 1];
        configs := configs[domains[i] := reply.value];
      }
      assert domains[..|domains|] == domains;
      ok := true;
    }

    /** Which domains are new, registered, and which configs no certificate uses any more. */
    method RegisterDomainsInAcmeServer(known: map<string, Config>)
      returns (ok: bool, added: map<string, Config>, needClean: seq<string>, ghost asked: seq<string>)
      modifies `posts
      ensures Asks(asked, certs, known.Keys)
      ensures ok ==> posts == old(posts) + |asked| && Granted(added, asked, replies, old(posts))
      ensures ok ==> Enumerates(needClean, known.Keys - Wanted(certs))
      ensures old(posts) <= posts <= old(posts) + |asked|
    {
      var needRegister, used := NeedRegister(certs, known);
      asked := needRegister;
      ok, added := RegisterAcmeDns(needRegister);
      needClean := KeysOf(known.Keys - used);
    }

    /** One write the API server answers or not. */
    method Write() returns (ok: bool)
      modifies `budget
      ensures ok <==> old(budget) > 0
      ensures budget == if ok then old(budget) - 1 else 0
    {
      ok := budget > 0;
      if ok { budget := budget - 1; }
    }

    /** Publishes the challenge names, certificate by certificate. */
    method UpdateStatusOfCerts(published: Issuer) returns (ok: bool)
      modifies `certs, `budget
      ensures exists k :: 0 <= k <= |old(certs)| && certs == PublishedUpTo(old(certs), published, k)
      ensures ok ==> certs == PublishedUpTo(old(certs), published, |old(certs)|)
      ensures !ok ==> budget == 0
    {
      ghost var before := certs;
      assert certs == PublishedUpTo(before, published, 0);
      for i := 0 to |certs|
        invariant |certs| == |before| && certs == PublishedUpTo(before, published, i)
      {
        if certs[i].usesDns01 && certs[i].domains != [] {
          var challenges := ChallengesOf(certs[i], published);
          ok := Write();
          if !ok { return; }
          certs := certs[i := certs[i].(challenges := challenges)];
        } else {
          NothingToPublish(certs[i], published);
        }
      }
      ok := true;
    }

    /** One pass over the issuer; it is created when there is none. */
    method ReconcileIssuer(acmeDomain: string) returns (ok: bool, ghost asked: seq<string>)
      modifies this
      ensures Asks(asked, old(certs), if old(issuer).Some? then old(issuer).value.configs.Keys else {})
      ensures old(posts) <= posts <= old(posts) + |asked|
      ensures ok ==> posts == old(posts) + |asked|
      ensures issuer == old(issuer) || PassLeaves(old(issuer), issuer, old(certs), asked, replies, old(posts), acmeDomain)
      ensures ok ==> PassLeaves(old(issuer), issuer, old(certs), asked, replies, old(posts), acmeDomain)
      ensures ok ==> certs == PublishedUpTo(old(certs), issuer.value, |old(certs)|)
    {
      var known := if issuer.Some? then issuer.value.configs else map[];
      var added, needClean;
      ok, added, needClean, asked := RegisterDomainsInAcmeServer(known);
      if !ok { return; }
      var configs := added;
      if issuer.Some? {
        configs := UpdateConfigs(known, added, needClean, acmeDomain, Wanted(certs), asked, replies, old(posts));
      }
      ok := Write();
      if !ok { return; }
      issuer := Some(Issuer(configs, acmeDomain));
      ok := UpdateStatusOfCerts(issuer.value);
    }
  }

  // ---- the pass as a relation ----

  function PublishedUpTo(certs: seq<Cert>, issuer: Issuer, k: nat): (r: seq<Cert>)
    requires k <= |certs|
    ensures |r| == |certs|
  {
    seq(|certs|, i requires 0 <= i < |certs| => if i < k then Published(certs[i], issuer) else certs[i])
  }

  lemma NothingToPublish(cert: Cert, issuer: Issuer)
    requires !cert.usesDns01 || cert.domains == []
    ensures Published(cert, issuer) == cert
  {
  }

  /** A config that survives keeps its credentials; a new one is the server's reply; every full domain is set right. */
  ghost predicate SyncedAt(old_: map<string, Config>, new_: map<string, Config>, asked: seq<string>,
      replies: seq<Option<Config>>, start: nat, base: string, d: string)
  {
    d in new_ ==>
      if d in old_ then new_[d] == WithFullDomain(old_[d], base)
      else exists k ::
        && LastAt(asked, d, k) && ReplyAt(replies, start + k).Some?
        && new_[d] == WithFullDomain(ReplyAt(replies, start + k).value, base)
  }

  ghost predicate Synced(old_: map<string, Config>, new_: map<string, Config>, wanted: set<string>, asked: seq<string>,
      replies: seq<Option<Config>>, start: nat, base: string)
  {
    && new_.Keys == wanted
    && forall d :: SyncedAt(old_, new_, asked, replies, start, base, d)
  }

  /** What a pass makes of the issuer; one that it creates carries the server's replies as they are. */
  ghost predicate PassLeaves(old_: Option<Issuer>, new_: Option<Issuer>, certs: seq<Cert>, asked: seq<string>,
      replies: seq<Option<Config>>, start: nat, base: string)
  {
    && new_.Some? && new_.value.baseAcmeDomain == base
    && if old_.Some? then Synced(old_.value.configs, new_.value.configs, Wanted(certs), asked, replies, start, base)
       else new_.value.configs.Keys == Wanted(certs) && Granted(new_.value.configs, asked, replies, start)
  }

  /** The configs of an existing issuer after a registration. */
  method UpdateConfigs(known: map<string, Config>, added: map<string, Config>, needClean: seq<string>, base: string,
      ghost wanted: set<string>, ghost asked: seq<string>, ghost replies: seq<Option<Config>>, ghost start: nat)
    returns (configs: map<string, Config>)
    requires forall d :: d in asked <==> d in wanted - known.Keys
    requires Granted(added, asked, replies, start) && Enumerates(needClean, known.Keys - wanted)
    ensures Synced(known, configs, wanted, asked, replies, start, base)
  {
    configs := Merge(known, added);
    configs := Clean(configs, needClean);
    configs := FixFullDomains(configs, base);
    assert Elements(needClean) == known.Keys - wanted;
    assert added.Keys == wanted - known.Keys;
    assert configs.Keys == wanted;
    forall d ensures SyncedAt(known, configs, asked, replies, start, base, d) {
      AddedIsSynced(known, added, configs, asked, replies, start, base, d);
    }
  }

  lemma AddedIsSynced(known: map<string, Config>, added: map<string, Config>, configs: map<string, Config>,
      asked: seq<string>, replies: seq<Option<Config>>, start: nat, base: string, d: string)
    requires GrantedAt(added, asked, replies, start, d) && (d in added ==> d !in known)
    requires d in configs ==> d in known || d in added
    requires d in configs ==> configs[d] == WithFullDomain(if d in added then added[d] else known[d], base)
    ensures SyncedAt(known, configs, asked, replies, start, base, d)
  {
  }

  // ---- the loops over maps ----

  method Merge(configs: map<string, Config>, added: map<string, Config>) returns (r: map<string, Config>)
    ensures r == configs + added
  {
    r := configs;
    var todo := added.Keys;
    MergedNothing(configs, added, todo);
    while todo != {}
      invariant todo <= added.Keys && r == Merged(configs, added, todo)
      decreases |todo|
    {
      var d :| d in todo;
      MergedStep(configs, added, todo, d);
      r, todo := r[d := added[d]], todo - {d};
    }
    MergedAll(configs, added, todo);
  }

  /** The configs with all added ones but those still to do. */
  function Merged(configs: map<string, Config>, added: map<string, Config>, todo: set<string>): map<string, Config> {
    configs + (added - todo)
  }

  lemma MergedNothing(configs: map<string, Config>, added: map<string, Config>, todo: set<string>)
    requires added.Keys <= todo
    ensures Merged(configs, added, todo) == configs
  {
  }

  lemma MergedStep(configs: map<string, Config>, added: map<string, Config>, todo: set<string>, d: string)
    requires d in todo && todo <= added.Keys
    ensures Merged(configs, added, todo - {d}) == Merged(configs, added, todo)[d := added[d]]
  {
  }

  lemma MergedAll(configs: map<string, Config>, added: map<string, Config>, todo: set<string>)
    requires todo == {}
    ensures Merged(configs, added, todo) == configs + added
  {
    assert added - todo == added;
  }

  method Clean(configs: map<string, Config>, needClean: seq<string>) returns (r: map<string, Config>)
    ensures r == configs - Elements(needClean)
  {
    r := configs;
    for i := 0 to |needClean|
      invariant r == configs - Elements(needClean[..i])
    {
      assert needClean[..i + 1] == needClean[..i] + [needClean[i]];
      r := r - {needClean[i]};
    }
    assert needClean[..|needClean|] == needClean;
  }

  function FullDomains(configs: map<string, Config>, base: string): map<string, Config> {
    map d | d in configs :: WithFullDomain(configs[d], base)
  }

  method FixFullDomains(configs: map<string, Config>, base: string) returns (r: map<string, Config>)
    ensures r == FullDomains(configs, base)
  {
    r := configs;
    var todo := configs.Keys;
    while todo != {}
      invariant todo <= configs.Keys == r.Keys
      invariant forall d :: d in configs ==> r[d] == if d in todo then configs[d] else WithFullDomain(configs[d], base)
      decreases |todo|
    {
      var d :| d in todo;
      r, todo := r[d := WithFullDomain(configs[d], base)], todo - {d};
    }
  }

  method ChallengesOf(cert: Cert, issuer: Issuer) returns (challenges: map<string, string>)
    requires cert.usesDns01
    ensures challenges == cert.challenges + Names(issuer, Trimmed(cert.domains))
  {
    var domains := TrimPrefixOfWildcardDomains(cert.domains);
    challenges := AddNames(cert.challenges, issuer, domains, Trimmed(cert.domains));
  }

  method AddNames(old_: map<string, string>, issuer: Issuer, domains: seq<string>, ghost all: set<string>)
    returns (challenges: map<string, string>)
    requires Enumerates(domains, all)
    ensures challenges == old_ + Names(issuer, all)
  {
    challenges := old_;
    ghost var seen := {};
    for i := 0 to |domains|
      invariant forall d :: d in seen <==> d in domains[..i]
      invariant challenges == old_ + Names(issuer, seen)
    {
      assert domains[..i + 1] == domains[..i] + [domains[i]];
      var d := domains[i];
      NamesStep(old_, issuer, seen, d);
      if d in issuer.configs {
        challenges := challenges[d := ChallengeName(issuer.configs[d], issuer.baseAcmeDomain)];
      }
      seen := seen + {d};
    }
    SameSet(seen, all, domains);
  }

  lemma SameSet(seen: set<string>, all: set<string>, domains: seq<string>)
    requires Enumerates(domains, all) && forall d :: d in seen <==> d in domains[..|domains|]
    ensures seen == all
  {
    assert domains[..|domains|] == domains;
  }

  lemma NamesStep(old_: map<string, string>, issuer: Issuer, seen: set<string>, d: string)
    ensures old_ + Names(issuer, seen + {d}) ==
      if d in issuer.configs
      then (old_ + Names(issuer, seen))[d := ChallengeName(issuer.configs[d], issuer.baseAcmeDomain)]
      else old_ + Names(issuer, seen)
  {
    var before, after := Names(issuer, seen), Names(issuer, seen + {d});
    if d in issuer.configs {
      assert after == before[d := ChallengeName(issuer.configs[d], issuer.baseAcmeDomain)];
    } else {
      assert after == before;
    }
  }

  method NeedRegister(certs: seq<Cert>, known: map<string, Config>) returns (needRegister: seq<string>, used: set<string>)
    ensures used == Wanted(certs) && Asks(needRegister, certs, known.Keys)
  {
    needRegister, used := [], {};
    for i := 0 to |certs|
      invariant used == Wanted(certs[..i]) && Asks(needRegister, certs[..i], known.Keys)
    {
      assert certs[..i + 1][..i] == certs[..i];
      if certs[i].usesDns01 {
        var domains := TrimPrefixOfWildcardDomains(certs[i].domains);
        var missing := Missing(domains, known);
        AsksStep(needRegister, certs[..i + 1], known.Keys, domains, missing);
        used, needRegister := used + Elements(domains), needRegister + missing;
      } else {
        AsksNothing(needRegister, certs[..i + 1], known.Keys);
      }
    }
    assert certs[..|certs|] == certs;
  }

  lemma AsksNothing(asked: seq<string>, certs: seq<Cert>, known: set<string>)
    requires certs != [] && !certs[|certs| - 1].usesDns01
    requires Asks(asked, certs[..|certs| - 1], known)
    ensures Asks(asked, certs, known) && Wanted(certs) == Wanted(certs[..|certs| - 1])
  {
    assert DomainsOf(certs[|certs| - 1]) - known == {};
  }

  /** The domains to register: every wanted one without a config, once for each certificate that has it. */
  ghost predicate Asks(asked: seq<string>, certs: seq<Cert>, known: set<string>) {
    && |asked| == Requests(certs, known)
    && forall d :: d in asked <==> d in Wanted(certs) - known
  }

  lemma AsksStep(asked: seq<string>, certs: seq<Cert>, known: set<string>, domains: seq<string>, missing: seq<string>)
    requires certs != [] && certs[|certs| - 1].usesDns01
    requires Asks(asked, certs[..|certs| - 1], known)
    requires Enumerates(domains, Trimmed(certs[|certs| - 1].domains))
    requires Enumerates(missing, Elements(domains) - known)
    ensures Asks(asked + missing, certs, known)
    ensures Wanted(certs) == Wanted(certs[..|certs| - 1]) + Elements(domains)
  {
    var here := DomainsOf(certs[|certs| - 1]);
    assert Elements(domains) == here;
    EnumeratesCount(missing, here - known);
    AsksMore(asked, missing, Wanted(certs[..|certs| - 1]), here, known);
  }

  lemma AsksMore(asked: seq<string>, missing: seq<string>, before: set<string>, here: set<string>, known: set<string>)
    requires forall d :: d in asked <==> d in before - known
    requires Enumerates(missing, here - known)
    ensures forall d :: d in asked + missing <==> d in before + here - known
  {
  }

  method Missing(domains: seq<string>, known: map<string, Config>) returns (missing: seq<string>)
    requires Distinct(domains)
    ensures Enumerates(missing, Elements(domains) - known.Keys)
  {
    missing := [];
    ghost var seen := {};
    for i := 0 to |domains|
      invariant forall d :: d in seen <==> d in domains[..i]
      invariant Enumerates(missing, seen - known.Keys)
    {
      var d := domains[i];
      assert d !in domains[..i];
      assert domains[..i + 1] == domains[..i] + [d];
      if d !in known {
        EnumeratesAdd(missing, seen - known.Keys, d);
        missing := missing + [d];
        assert seen - known.Keys + {d} == seen + {d} - known.Keys;
      } else {
        assert seen - known.Keys == seen + {d} - known.Keys;
      }
      seen := seen + {d};
    }
    assert seen == Elements(domains);
  }
}
