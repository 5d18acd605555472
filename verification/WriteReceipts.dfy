/**
 Whose delivery a reply names. The connectors' keys are texts joined with colons, so it depends on the
 ids: for minutes on the tenant ids, for reports on the report ids.
 */
module WriteReceipts {
  import opened Wrappers
  import opened Drafts
  import opened ReviewedWrites
  import opened WriteSafety

  // ----- minutes ---------------------------------------------------------------------------------------

  /** `longer` is `tenant`, a colon, and any text. */
  predicate Extends(tenant: string, longer: string) {
    tenant + ":" <= longer
  }

  /** The shorter tenant id, the colon and what follows it can be read either way. */
  predicate ReadsAs(x: Target, y: Target)
    requires x.Meeting? && y.Meeting?
  {
    Extends(x.tenantId, y.tenantId) && x.meetingId == y.tenantId[|x.tenantId| + 1..] + ":" + y.meetingId
  }

  lemma ShorterFirst(x: Target, y: Target, employee: string, content: Content)
    requires x.Meeting? && y.Meeting? && |x.tenantId| <= |y.tenantId|
    requires ConnectorKey(x, employee, content) == ConnectorKey(y, employee, content)
    ensures x == y || ReadsAs(x, y)
  {
    var key := ConnectorKey(x, employee, content).text;
    var n, m := |x.tenantId|, |y.tenantId|;
    assert x.tenantId == key[..n] && y.tenantId == key[..m] == key[..n] + key[n..m];
    assert key[n] == ':' && key[m] == ':' && x.meetingId == key[n + 1..] && y.meetingId == key[m + 1..];
    if n < m {
      assert x.tenantId + ":" == key[..n + 1] == y.tenantId[..n + 1];
      assert y.tenantId[n + 1..] == key[n + 1..m];
      assert key[n + 1..] == key[n + 1..m] + ":" + key[m + 1..];
    }
  }

  lemma ReadingsCollide(x: Target, y: Target, employee: string, content: Content)
    requires x.Meeting? && y.Meeting? && ReadsAs(x, y)
    ensures ConnectorKey(x, employee, content) == ConnectorKey(y, employee, content)
  {
    var rest := y.tenantId[|x.tenantId| + 1..];
    assert y.tenantId == x.tenantId + ":" + rest;
    assert x.tenantId + ":" + (rest + ":" + y.meetingId) == x.tenantId + ":" + rest + ":" + y.meetingId;
  }

  /** Two different meetings share their connector key exactly if one tenant id is the other, a colon
      and more, and the meeting ids make up for it. */
  lemma KeysCollideIff(x: Target, y: Target, employee: string, content: Content)
    requires x.Meeting? && y.Meeting? && x != y
    ensures ConnectorKey(x, employee, content) == ConnectorKey(y, employee, content) <==> ReadsAs(x, y) || ReadsAs(y, x)
  {
    if ConnectorKey(x, employee, content) == ConnectorKey(y, employee, content) {
      if |x.tenantId| <= |y.tenantId| {
        ShorterFirst(x, y, employee, content);
      } else {
        ShorterFirst(y, x, employee, content);
      }
    }
    if ReadsAs(x, y) { ReadingsCollide(x, y, employee, content); }
    if ReadsAs(y, x) { ReadingsCollide(y, x, employee, content); }
  }

  /** The reply to a send names an email with these very minutes, unless one of the two tenant ids
      extends the other. */
  lemma ReplyNamesOwnEmail(cfg: Config, s: State, i: nat)
    requires Reachable(cfg, s) && i < |s.ledger.replies| && s.ledger.replies[i].0.Meeting?
    ensures s.ledger.replies[i].1 < |s.connector.outbox|
    ensures var (target, email) := (s.ledger.replies[i].0, s.connector.outbox[s.ledger.replies[i].1]);
            && email.target.Meeting?
            && (email.target == target || ReadsAs(email.target, target) || ReadsAs(target, email.target))
  {
    ReachableInv(cfg, s);
    var (target, receipt) := s.ledger.replies[i];
    assert ReceiptOk(s.connector, target, receipt);
    var email := s.connector.outbox[receipt];
    assert DeliveryOk(cfg, s.drafts, email);
    if email.target != target { KeysCollideIff(email.target, target, email.employee, email.content); }
  }

  lemma SendFirst(cfg: Config, x: Target, content: Content) returns (s: State)
    requires x.Meeting? && cfg.shareable(x, content, None)
    ensures Reachable(cfg, s) && PhaseOf(s, 0).Idle?
    ensures s.ledger == Ledger(map[x := 0], [(x, 0)])
    ensures |s.connector.outbox| == 1 && s.connector.outbox[0].target == x
    ensures ConnectorKey(x, "", content) in s.connector.keys && s.connector.keys[ConnectorKey(x, "", content)] == 0
  {
    InitReachable(cfg);
    var approved := Approve(cfg, INIT, 0, x, content);
    s := SendReaches(cfg, approved, 0, x);
    ReachableInv(cfg, s);
    assert s.connector.outbox[0].key == ConnectorKey(x, "", content);
  }

  /** If two meetings share a key, sending both answers the second with the first one's email. */
  lemma SharedKeyMisanswers(cfg: Config, x: Target, y: Target, first: Content, second: Content) returns (s: State)
    requires x.Meeting? && y.Meeting? && x != y && (ReadsAs(x, y) || ReadsAs(y, x))
    requires cfg.shareable(x, first, None) && cfg.shareable(y, second, None)
    ensures Reachable(cfg, s) && s.ledger.replies == [(x, 0), (y, 0)]
    ensures |s.connector.outbox| == 1 && s.connector.outbox[0].target == x
  {
    KeysCollideIff(x, y, "", second);
    var sent := SendFirst(cfg, x, first);
    assert ConnectorKey(y, "", second) in sent.connector.keys;
    var approved := Approve(cfg, sent, 0, y, second);
    s := SendReaches(cfg, approved, 0, y);
  }

  /** Minutes that were once answered with another meeting's email never leave, in any continuation. */
  lemma MisansweredNeverLeave(cfg: Config, s: State, i: nat, steps: seq<Step>, s': State, j: nat)
    requires Reachable(cfg, s) && i < |s.ledger.replies| && s.ledger.replies[i].0.Meeting?
    requires s.ledger.replies[i].1 < |s.connector.outbox|
    requires s.connector.outbox[s.ledger.replies[i].1].target != s.ledger.replies[i].0
    requires Run(cfg, s, steps, s') && j < |s'.connector.outbox|
    ensures s'.connector.outbox[j].target != s.ledger.replies[i].0
  {
    ReachableInv(cfg, s);
    ReachRun(cfg, s, steps, s');
    ResultsAreFinal(cfg, s, steps, s', s.ledger.replies[i].0);
    if s'.connector.outbox[j].target == s.ledger.replies[i].0 {
      ReplyNamesTheOneEmail(cfg, s', i, j);
    }
  }

  /** Among these tenants, in every run, each reply to a send names an email with the minutes sent. */
  ghost predicate SendsAreAnsweredTruly(cfg: Config, tenants: iset<string>) {
    forall s, i ::
      (&& Reachable(cfg, s) && 0 <= i < |s.ledger.replies| && s.ledger.replies[i].0.Meeting?
       && s.ledger.replies[i].0.tenantId in tenants && s.ledger.replies[i].1 < |s.connector.outbox|
       && s.connector.outbox[s.ledger.replies[i].1].target.tenantId in tenants)
      ==> s.connector.outbox[s.ledger.replies[i].1].target == s.ledger.replies[i].0
  }

  ghost predicate NoTenantExtendsAnother(tenants: iset<string>) {
    forall a, b :: a in tenants && b in tenants ==> !Extends(a, b)
  }

  ghost predicate SomethingMayLeave(cfg: Config, t: Target) {
    exists content :: cfg.shareable(t, content, None)
  }

  /** A set of tenant ids is safe exactly if none is another one followed by a colon and more. */
  lemma TenantsAreSafeIff(cfg: Config, tenants: iset<string>)
    requires forall t: Target :: t.Meeting? ==> SomethingMayLeave(cfg, t)
    ensures SendsAreAnsweredTruly(cfg, tenants) <==> NoTenantExtendsAnother(tenants)
  {
    if NoTenantExtendsAnother(tenants) {
      forall s, i | && Reachable(cfg, s) && 0 <= i < |s.ledger.replies| && s.ledger.replies[i].0.Meeting?
                    && s.ledger.replies[i].0.tenantId in tenants && s.ledger.replies[i].1 < |s.connector.outbox|
                    && s.connector.outbox[s.ledger.replies[i].1].target.tenantId in tenants
        ensures s.connector.outbox[s.ledger.replies[i].1].target == s.ledger.replies[i].0
      {
        ReplyNamesOwnEmail(cfg, s, i);
      }
    }
    if a, b :| a in tenants && b in tenants && Extends(a, b) {
      var x, y := Meeting(a, b[|a| + 1..] + ":"), Meeting(b, "");
      assert ReadsAs(x, y);
      assert SomethingMayLeave(cfg, x) && SomethingMayLeave(cfg, y);
      var first :| cfg.shareable(x, first, None);
      var second :| cfg.shareable(y, second, None);
      var s := SharedKeyMisanswers(cfg, x, y, first, second);
      assert s.ledger.replies[1] == (y, 0) && s.connector.outbox[0].target != y;
    }
  }

  // ----- reports -----------------------------------------------------------------------------------------

  predicate NoColon(text: string) {
    forall i :: 0 <= i < |text| ==> text[i] != ':'
  }

  lemma LastPart(p: string, x: string, q: string, y: string)
    requires NoColon(x) && NoColon(y) && p + ":" + x == q + ":" + y
    ensures x == y && p == q
  {
    var k := p + ":" + x;
    assert k[|p|] == ':' && k[|q|] == ':';
    assert forall i :: |p| < i < |k| ==> k[i] == x[i - |p| - 1];
    assert forall i :: |q| < i < |k| ==> k[i] == y[i - |q| - 1];
    assert |p| == |q|;
    assert x == k[|p| + 1..] && y == k[|q| + 1..];
    assert p == k[..|p|] && q == k[..|q|];
  }

  /** Without colons in their parts, the keys of two filings agree exactly if the tenants, the employees,
      the dates and the report ids all do; and never with the key of an email. */
  lemma ReportKeysAgreeIff(x: Target, e1: string, c1: Content, y: Target, e2: string, c2: Content)
    requires x.Report? && y.Report? && NoColon(x.tenantId) && NoColon(y.tenantId) && NoColon(e1) && NoColon(e2)
    requires NoColon(c1.reportDate) && NoColon(c2.reportDate) && NoColon(x.reportId) && NoColon(y.reportId)
    ensures ConnectorKey(x, e1, c1) == ConnectorKey(y, e2, c2) <==>
            x == y && e1 == e2 && c1.reportDate == c2.reportDate
    ensures forall m: Target :: m.Meeting? ==> ConnectorKey(m, e2, c2) != ConnectorKey(x, e1, c1)
  {
    if ConnectorKey(x, e1, c1) == ConnectorKey(y, e2, c2) {
      LastPart(x.tenantId + ":" + e1 + ":" + c1.reportDate, x.reportId,
               y.tenantId + ":" + e2 + ":" + c2.reportDate, y.reportId);
      LastPart(x.tenantId + ":" + e1, c1.reportDate, y.tenantId + ":" + e2, c2.reportDate);
      LastPart(x.tenantId, e1, y.tenantId, e2);
    }
  }

  /** The reply to a submit names a filing of that very report, if report ids have no colon and the one
      submitted is nobody else's. */
  lemma ReplyNamesOwnReport(cfg: Config, s: State, i: nat)
    requires Reachable(cfg, s) && i < |s.ledger.replies| && s.ledger.replies[i].0.Report?
    ensures s.ledger.replies[i].1 < |s.connector.outbox|
    ensures var (target, filed) := (s.ledger.replies[i].0, s.connector.outbox[s.ledger.replies[i].1]);
            && filed.target.Report? && filed.target in s.drafts.born
            && (NoColon(target.reportId) && NoColon(filed.target.reportId) ==>
                  filed.target.reportId == target.reportId)
            && (NoColon(target.reportId) && NoColon(filed.target.reportId)
                && (forall x :: x in s.drafts.born && x.Report? && x.reportId == target.reportId ==> x == target)
                ==> filed.target == target)
  {
    ReachableInv(cfg, s);
    var (target, receipt) := s.ledger.replies[i];
    assert ReceiptOk(s.connector, target, receipt);
    var filed := s.connector.outbox[receipt];
    assert DeliveryOk(cfg, s.drafts, filed);
    var employee, content :| filed.key == ConnectorKey(target, employee, content);
    if filed.target.Report? && NoColon(target.reportId) && NoColon(filed.target.reportId) {
      LastPart(target.tenantId + ":" + employee + ":" + content.reportDate, target.reportId,
               filed.target.tenantId + ":" + filed.employee + ":" + filed.content.reportDate, filed.target.reportId);
    }
  }
}
