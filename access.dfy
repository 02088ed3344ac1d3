/**
 * The role checks of the `/data`, `/chat` and `/chart-data` handlers, and
 * the company list of `/companies`. A user's role is free text; only
 * "analyst" and "ceo" are restricted to their assigned companies.
 */
module Access {
  import opened Wrappers
  import MetricClassifier

  datatype User = User(role: string, assignedCompanies: seq<int>)

  datatype Company = Company(id: int, name: string)

  /** The two refusals a handler raises before touching any data. */
  datatype AccessError = CompanyNotFound | AccessDenied

  function StatusCode(e: AccessError): int {
    match e
    case CompanyNotFound => 404
    case AccessDenied => 403
  }

  /** The role-based `if` / `elif`: analysts and CEOs need the company assigned; every other role passes. */
  predicate RoleAllows(user: User, companyId: int) {
    if user.role == "analyst" then companyId in user.assignedCompanies
    else if user.role == "ceo" then companyId in user.assignedCompanies
    else true
  }

  /** `.first()` of a filtered query: the first company of the table that passes the filter. */
  function FirstWhere(companies: seq<Company>, keep: Company -> bool): (r: Option<Company>)
    ensures r.None? <==> forall i :: 0 <= i < |companies| ==> !keep(companies[i])
    ensures r.Some? ==> r.value in companies && keep(r.value)
  {
    if companies == [] then None
    else if keep(companies[0]) then Some(companies[0])
    else FirstWhere(companies[1..], keep)
  }

  /** The query by name of `/data`. */
  function CompanyNamed(companies: seq<Company>, name: string): Option<Company> {
    FirstWhere(companies, (c: Company) => c.name == name)
  }

  /** The query by id of `/chat` and `/chart-data`. */
  function CompanyWithId(companies: seq<Company>, id: int): Option<Company> {
    FirstWhere(companies, (c: Company) => c.id == id)
  }

  /** The existence check, then the role check, on the company a handler found. */
  function Authorize(user: User, company: Option<Company>): (r: Result<Company, AccessError>)
    ensures r.Ok? <==> company.Some? && RoleAllows(user, company.value.id)
    ensures r.Ok? ==> r.value == company.value
    ensures r == Err(CompanyNotFound) <==> company.None?
  {
    match company
    case None => Err(CompanyNotFound)
    case Some(c) => if RoleAllows(user, c.id) then Ok(c) else Err(AccessDenied)
  }

  /** `/data?company=<name>`: the company is looked up by name. */
  function DataAccess(user: User, companies: seq<Company>, name: string): Result<Company, AccessError> {
    Authorize(user, CompanyNamed(companies, name))
  }

  /** `/chart-data?company_id=<id>`: the company is looked up by id. */
  function ChartDataAccess(user: User, companies: seq<Company>, companyId: int): Result<Company, AccessError> {
    Authorize(user, CompanyWithId(companies, companyId))
  }

  /** `/chat`: the checks run only when the request's `company_id` is truthy, that is present and not 0. */
  function ChatAccess(user: User, companies: seq<Company>, companyId: Option<int>): Result<(), AccessError> {
    if companyId.Some? && companyId.value != 0 then
      match Authorize(user, CompanyWithId(companies, companyId.value))
      case Ok(_) => Ok(())
      case Err(e) => Err(e)
    else Ok(())
  }

  /** `/companies`: everything for the family, the assigned companies for every other role. */
  function VisibleCompanies(user: User, companies: seq<Company>): (r: seq<Company>)
    ensures forall c :: c in r <==> c in companies && (user.role == "ambani_family" || c.id in user.assignedCompanies)
  {
    if user.role == "ambani_family" then companies else AssignedOnly(user.assignedCompanies, companies)
  }

  /** `Company.id.in_(assigned_companies)`, keeping the table's order. */
  function AssignedOnly(ids: seq<int>, companies: seq<Company>): (r: seq<Company>)
    ensures forall c :: c in r <==> c in companies && c.id in ids
    ensures |r| <= |companies|
  {
    if companies == [] then []
    else (if companies[0].id in ids then [companies[0]] else []) + AssignedOnly(ids, companies[1..])
  }

  /** A restricted user is refused exactly the companies not assigned to them, whichever handler is asked. */
  lemma RestrictedRoles(user: User, companies: seq<Company>, id: int)
    requires user.role == "analyst" || user.role == "ceo"
    requires CompanyWithId(companies, id).Some?
    ensures ChartDataAccess(user, companies, id) == Err(AccessDenied) <==> id !in user.assignedCompanies
    ensures id != 0 ==> (ChatAccess(user, companies, Some(id)).Err? <==> id !in user.assignedCompanies)
  {
  }

  /** Any role other than the two restricted ones reaches every existing company. */
  lemma OtherRolesPass(user: User, companies: seq<Company>, name: string)
    requires user.role != "analyst" && user.role != "ceo"
    ensures DataAccess(user, companies, name).Ok? <==> exists i :: 0 <= i < |companies| && companies[i].name == name
  {
  }

  /** A chat without a company, or with company 0, is never refused. */
  lemma ChatWithoutCompany(user: User, companies: seq<Company>)
    ensures ChatAccess(user, companies, None) == Ok(())
    ensures ChatAccess(user, companies, Some(0)) == Ok(())
  {
  }

  /** Every company `/companies` lists is one `/chart-data` lets the same user open. */
  lemma VisibleIsAccessible(user: User, companies: seq<Company>, c: Company)
    requires c in VisibleCompanies(user, companies)
    ensures ChartDataAccess(user, companies, c.id).Ok?
  {
    var i :| 0 <= i < |companies| && companies[i] == c;
    assert CompanyWithId(companies, c.id).Some?;
  }

  /**
   * The converse fails for roles outside the three the code names: such a
   * user opens any existing company's data, but `/companies` lists only the
   * assigned ones.
   */
  lemma UnlistedButAccessible(user: User, companies: seq<Company>, c: Company)
    requires user.role != "analyst" && user.role != "ceo" && user.role != "ambani_family"
    requires c in companies && c.id !in user.assignedCompanies
    ensures c !in VisibleCompanies(user, companies)
    ensures ChartDataAccess(user, companies, c.id).Ok?
  {
    var i :| 0 <= i < |companies| && companies[i] == c;
    assert CompanyWithId(companies, c.id).Some?;
  }

  /** `/metrics`: the ten metric names, in the order of the parser's mapping. */
  const MetricNames: seq<string> := [
    "total_assets", "total_liabilities", "total_equity", "revenue", "net_profit",
    "cash_flow", "current_assets", "non_current_assets", "current_liabilities", "non_current_liabilities"
  ]

  /** The names `/metrics` lists are exactly the keys of the parser's metric types, in mapping order. */
  lemma MetricNamesMatchParser(i: nat)
    requires i < |MetricNames|
    ensures |MetricClassifier.MetricMappings| == |MetricNames|
    ensures MetricNames[i] == MetricClassifier.Key(MetricClassifier.MetricMappings[i].metric)
  {
  }
}
