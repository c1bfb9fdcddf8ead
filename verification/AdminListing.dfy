/** The cross-tenant scan list of the admin API. */
module AdminListing {
  import opened Wrappers
  import opened StableSort

  datatype Tenant = Tenant(id: nat, name: string, slug: string)
  datatype Scan = Scan(id: nat, status: string, updatedAt: int)
  datatype Listed = Listed(scan: Scan, tenantName: string, tenantSlug: string)

  /** Each tenant's scans, in the order the database returns them. */
  type ScanTable = map<nat, seq<Scan>>

  predicate Newer(x: Listed, y: Listed) {
    x.scan.updatedAt >= y.scan.updatedAt
  }

  predicate NewestFirst(scans: seq<Scan>) {
    forall i, j | 0 <= i < j < |scans| :: scans[i].updatedAt >= scans[j].updatedAt
  }

  /** An absent or empty status means no filter. */
  predicate Selected(status: Option<string>, scan: Scan) {
    status.Some? && status.value != "" ==> scan.status == status.value
  }

  function ScansOf(table: ScanTable, tenant: Tenant, status: Option<string>): seq<Scan> {
    if tenant.id in table then Filter(scan => Selected(status, scan), table[tenant.id]) else []
  }

  function Label(tenant: Tenant, scans: seq<Scan>): seq<Listed> {
    seq(|scans|, i requires 0 <= i < |scans| => Listed(scans[i], tenant.name, tenant.slug))
  }

  /** Every selected scan of every tenant, tenant by tenant. */
  function AllScans(table: ScanTable, tenants: seq<Tenant>, status: Option<string>): seq<Listed> {
    if tenants == [] then []
    else
      var last := tenants[|tenants| - 1];
      AllScans(table, tenants[..|tenants| - 1], status) + Label(last, ScansOf(table, last, status))
  }

  lemma NewerIsTotalPreorder()
    ensures TotalPreorder(Newer)
  {
  }

  lemma {:induction false} FilterNewestFirst(keep: Scan -> bool, scans: seq<Scan>)
    requires NewestFirst(scans)
    ensures NewestFirst(Filter(keep, scans))
  {
    if scans != [] {
      FilterNewestFirst(keep, scans[1..]);
      FilterContents(keep, scans[1..]);
      var kept := Filter(keep, scans[1..]);
      forall j | 0 <= j < |kept| ensures scans[0].updatedAt >= kept[j].updatedAt {
        assert kept[j] in scans[1..];
      }
    }
  }

  lemma TenantRun(table: ScanTable, tenant: Tenant, status: Option<string>, limit: nat)
    requires forall t | t in table :: NewestFirst(table[t])
    ensures var scans := ScansOf(table, tenant, status);
            && Sorted(Newer, Label(tenant, scans))
            && Take(limit, Label(tenant, scans)) == Label(tenant, Take(limit, scans))
  {
    if tenant.id in table {
      FilterNewestFirst(scan => Selected(status, scan), table[tenant.id]);
    }
    assert NewestFirst(ScansOf(table, tenant, status));
  }

  /** One tenant's limited rows stand in for all of its rows. */
  lemma MergeStep(table: ScanTable, tenants: seq<Tenant>, status: Option<string>, limit: nat, i: nat, results: seq<Listed>)
    requires i < |tenants| && forall t | t in table :: NewestFirst(table[t])
    requires TopK(Newer, limit, results) == TopK(Newer, limit, AllScans(table, tenants[..i], status))
    ensures TopK(Newer, limit, results + Label(tenants[i], Take(limit, ScansOf(table, tenants[i], status))))
            == TopK(Newer, limit, AllScans(table, tenants[..i + 1], status))
  {
    TenantRun(table, tenants[i], status, limit);
    NewerIsTotalPreorder();
    MergeRun(Newer, limit, results, AllScans(table, tenants[..i], status),
             Label(tenants[i], ScansOf(table, tenants[i], status)));
    assert tenants[..i + 1][..i] == tenants[..i];
  }

  /** The inner loop of list_scans. */
  method AppendRows(results: seq<Listed>, tenant: Tenant, rows: seq<Scan>) returns (extended: seq<Listed>)
    ensures extended == results + Label(tenant, rows)
  {
    extended := results;
    for j := 0 to |rows|
      invariant extended == results + Label(tenant, rows)[..j]
    {
      extended := extended + [Listed(rows[j], tenant.name, tenant.slug)];
    }
  }

  /** list_scans: the limit is applied to every tenant's query and again to the merged list. */
  method ListScans(table: ScanTable, tenants: seq<Tenant>, status: Option<string>, limit: nat)
    returns (page: seq<Listed>)
    requires forall t | t in table :: NewestFirst(table[t])
    ensures page == Take(limit, Sort(Newer, AllScans(table, tenants, status)))
  {
    var results: seq<Listed> := [];
    for i := 0 to |tenants|
      invariant TopK(Newer, limit, results) == TopK(Newer, limit, AllScans(table, tenants[..i], status))
    {
      var rows := Take(limit, ScansOf(table, tenants[i], status));
      MergeStep(table, tenants, status, limit, i, results);
      results := AppendRows(results, tenants[i], rows);
    }
    assert tenants[..|tenants|] == tenants;
    results := Sort(Newer, results);
    page := Take(limit, results);
  }

  /** Scans updated at the same moment are listed by tenant and then in the tenant's own order. */
  lemma TiesFollowTenants(table: ScanTable, tenants: seq<Tenant>, status: Option<string>, updatedAt: int)
    ensures var sameMoment := (row: Listed) => row.scan.updatedAt == updatedAt;
            var all := AllScans(table, tenants, status);
            Filter(sameMoment, Sort(Newer, all)) == Filter(sameMoment, all)
  {
    var sameMoment := (row: Listed) => row.scan.updatedAt == updatedAt;
    var all := AllScans(table, tenants, status);
    NewerIsTotalPreorder();
    SortFilter(Newer, all, sameMoment);
    FilterContents(sameMoment, all);
    SortTiedIsIdentity(Newer, Filter(sameMoment, all));
  }

  /** Whether the list for this filter holds the scan: any scan of the tenant without a filter, or with an
      empty one, and otherwise those in exactly that status. */
  lemma {:induction false} ListedScans(table: ScanTable, tenants: seq<Tenant>, status: Option<string>, row: Listed)
    ensures row in AllScans(table, tenants, status) <==>
            exists t :: t in tenants && t.id in table && row.scan in table[t.id]
                        && row.tenantName == t.name && row.tenantSlug == t.slug
                        && (status == None || status == Some("") || status == Some(row.scan.status))
  {
    if tenants != [] {
      var init, last := tenants[..|tenants| - 1], tenants[|tenants| - 1];
      ListedScans(table, init, status, row);
      LabelledScans(table, last, status, row);
      assert tenants == init + [last];
    }
  }

  lemma LabelledScans(table: ScanTable, tenant: Tenant, status: Option<string>, row: Listed)
    ensures row in Label(tenant, ScansOf(table, tenant, status)) <==>
              && tenant.id in table && row.scan in table[tenant.id]
              && row.tenantName == tenant.name && row.tenantSlug == tenant.slug
              && (status == None || status == Some("") || status == Some(row.scan.status))
  {
    var scans := ScansOf(table, tenant, status);
    if tenant.id in table {
      FilterContents(scan => Selected(status, scan), table[tenant.id]);
    }
    if row.scan in scans && row.tenantName == tenant.name && row.tenantSlug == tenant.slug {
      var i :| 0 <= i < |scans| && scans[i] == row.scan;
      assert Label(tenant, scans)[i] == row;
    }
  }

  /** The page is the newest part of that list, newest first: what it leaves out is no newer. */
  lemma PageIsNewest(table: ScanTable, tenants: seq<Tenant>, status: Option<string>, limit: nat) returns (rest: seq<Listed>)
    ensures var all := AllScans(table, tenants, status);
            var page := Take(limit, Sort(Newer, all));
            && |page| == (if limit < |all| then limit else |all|)
            && multiset(page) + multiset(rest) == multiset(all)
            && (forall i, j | 0 <= i < j < |page| :: page[i].scan.updatedAt >= page[j].scan.updatedAt)
            && (forall x, y | x in page && y in rest :: x.scan.updatedAt >= y.scan.updatedAt)
  {
    var all := AllScans(table, tenants, status);
    var sorted := Sort(Newer, all);
    NewerIsTotalPreorder();
    SortIsSortedPermutation(Newer, all);
    SameLength(sorted, all);
    rest := CutAt(sorted, limit);
    var page := Take(limit, sorted);
    forall x, y | x in page && y in rest ensures x.scan.updatedAt >= y.scan.updatedAt {
      FrontIsNewer(sorted, |page|, x, y);
    }
  }

  lemma SameLength(xs: seq<Listed>, ys: seq<Listed>)
    requires multiset(xs) == multiset(ys)
    ensures |xs| == |ys|
  {
    assert |multiset(xs)| == |multiset(ys)|;
  }

  lemma CutAt(rows: seq<Listed>, limit: nat) returns (rest: seq<Listed>)
    ensures var page := Take(limit, rows);
            && |page| == (if limit < |rows| then limit else |rows|)
            && page == rows[..|page|] && rest == rows[|page|..]
            && multiset(page) + multiset(rest) == multiset(rows)
  {
    var page := Take(limit, rows);
    rest := rows[|page|..];
    assert rows == page + rest;
  }

  lemma FrontIsNewer(sorted: seq<Listed>, n: nat, x: Listed, y: Listed)
    requires n <= |sorted| && x in sorted[..n] && y in sorted[n..]
    requires forall i, j | 0 <= i < j < |sorted| :: Newer(sorted[i], sorted[j])
    ensures x.scan.updatedAt >= y.scan.updatedAt
  {
    var i :| 0 <= i < n && sorted[..n][i] == x;
    var j :| 0 <= j < |sorted| - n && sorted[n..][j] == y;
    assert Newer(sorted[i], sorted[n + j]);
  }
}
