/**
 * The application's domain records (types.ts, "Application Domain Types"
 * and "SaaS / Auth Types"), plus the Option and Result wrappers the rest of
 * the model uses for missing values and error paths.
 *
 * Money amounts are whole yen (`int`); the source stores them as JavaScript
 * numbers. The modelled computations add, multiply and subtract them; the
 * divisions of the cost view (per-person cost, percentage share) are not
 * modelled.
 */
module Types {

  datatype Option<T> = None | Some(value: T)

  datatype Result<T, E> = Success(value: T) | Failure(error: E)

  datatype ClinicType = HQ | Branch

  datatype Clinic = Clinic(
    id: string,
    name: string,
    clinicType: ClinicType,
    address: string,
    chairs: int,
    phone: string)

  datatype SystemStatus = Active | Review | Canceling

  datatype SystemTool = SystemTool(
    id: string,
    name: string,
    category: string,
    url: string,
    monthlyCostPerUser: int,
    baseMonthlyCost: int,
    renewalDate: string,
    adminOwner: string,
    vendorContact: string,
    status: SystemStatus,
    issues: seq<string>,
    contractUrl: Option<string>)

  datatype EmploymentType = FullTime | PartTime

  datatype EmployeeStatus = Active | Onboarding | Offboarding

  /** A staff member; `role` is free text so that custom roles are possible. */
  datatype Employee = Employee(
    id: string,
    firstName: string,
    lastName: string,
    clinicId: string,
    role: string,
    employmentType: EmploymentType,
    email: string,
    joinDate: string,
    assignedSystems: seq<string>,
    status: EmployeeStatus)

  datatype NamingRule = NamingRule(rule: string, pattern: string, example: string)

  datatype SecurityPolicy = SecurityPolicy(title: string, content: string)

  datatype ManualLink = ManualLink(title: string, url: string, updatedAt: string)

  datatype GovernanceConfig = GovernanceConfig(
    naming: seq<NamingRule>,
    security: seq<SecurityPolicy>,
    manuals: Option<seq<ManualLink>>,
    customRoles: Option<seq<string>>)

  datatype UserRole = ClientAdmin | SuperAdmin

  datatype User = User(id: string, email: string, name: string, role: UserRole, tenantId: string)

  datatype Plan = Free | Pro | Enterprise

  datatype TenantStatus = Active | Inactive | Suspended

  /**
   * A tenant (one clinic group). Its governance is optional here because
   * data saved by older versions of the application may lack it; the store
   * fills it in when loading (module TenantStore).
   */
  datatype Tenant = Tenant(
    id: string,
    name: string,
    plan: Plan,
    status: TenantStatus,
    createdAt: string,
    ownerEmail: string,
    clinics: seq<Clinic>,
    systems: seq<SystemTool>,
    employees: seq<Employee>,
    governance: Option<GovernanceConfig>)
}
