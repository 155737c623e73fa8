# Dental IT Manager — verified model of the list computations

Dental IT Manager is a multi-tenant web application for dental clinic
groups. It keeps a ledger of the IT systems a clinic group pays for, the
staff who use them, and the clinics they work at. An operator sees every
tenant on one dashboard. This project models the logic of that application
in Dafny and proves what it promises:

- **Cost view** (`CostAnalysis`). Each system's monthly cost is its base fee
  plus its per-user price times the number of employees assigned to it. The
  rows are sorted most expensive first and added up, and the legend shows
  the top three.
- **Summary dashboard** (`Dashboard`). It shows the same monthly total
  computed a second way, the alert count, a staff-per-role histogram, a
  staff-per-clinic chart and the full-time / part-time split.
- **Operator dashboard** (`SuperAdminDashboard`). It shows monthly recurring
  revenue by plan, the user total and the per-tenant chart.
- **Staff directory** (`UserDirectory`). It has a substring search, the
  clinic name lookup and the one-letter system badges.
- **Onboarding wizard** (`OnboardingWizard`). The selection toggle and the
  loop that turns the selected presets into system records, one remote write
  at a time.
- **Notifications** (`NotificationContext`). The toast list: append, remove
  by id, and the guard that refuses use outside a provider.
- **Tenant store** (`TenantStore`). Loading from the remote row, else the
  local copy, else the demo tenants. It fills in a missing governance
  configuration, saves the local copy before the remote row, and resets.

The records of types.ts are datatypes in `Types`. Generic helpers are in
`Strings` and `Lists`:

- JavaScript's `includes`, `split(' ')[0]` and single `replace`;
- the subsequence relation and the no-duplicates predicate.

Code made of `map`, `filter` and `reduce` is modelled as functions and
lemmas. The places where the source changes state step by step are
imperative Dafny:

- the `roles` dictionary, a local map filled by a loop with invariants;
- the notification list, a class field its methods reassign under
  `modifies` clauses;
- the wizard's write loop and its state, likewise;
- the two stores, likewise.

The constant data of the application (clinics, employees, systems, presets,
governance rules) are parameters. So are the clock and random values the
source draws.

The data module stores the whole tenant list as one value, both in local
storage and in a single remote row.

## Model

| member | source | states |
|---|---|---|
| Strings.Includes | components/views/UserDirectory.tsx:9-11 | `String.prototype.includes`: true exactly when the term occurs at some position of the text |
| Strings.FirstWord | components/views/Dashboard.tsx:36 | `split(' ')[0]`: a prefix of the text without a space, ending where the first space is |
| Strings.IndexOf | components/views/Dashboard.tsx:43 | -1 exactly when the pattern does not occur, otherwise the position of its first occurrence |
| Strings.ReplaceFirst | components/views/Dashboard.tsx:43 | `replace` with a string pattern: unchanged when the pattern does not occur, otherwise only the first occurrence is replaced |
| CostAnalysis.UserCount | components/views/CostAnalysis.tsx:9 | the head count of a system is between 0 and the number of employees, 0 exactly when nobody is assigned, all exactly when everybody is |
| CostAnalysis.Rows | components/views/CostAnalysis.tsx:8-15 | one row per system in catalogue order, each with the system's name, base fee plus per-user price times head count, and head count |
| CostAnalysis.Insert | components/views/CostAnalysis.tsx:16 | inserting a row adds exactly that row to the multiset and its cost to the total |
| CostAnalysis.InsertKeepsOrder | components/views/CostAnalysis.tsx:16 | inserting into a list ordered most expensive first keeps it so ordered |
| CostAnalysis.SortByCost | components/views/CostAnalysis.tsx:16 | the sort returns a permutation of its input, ordered by non-increasing cost, with the same total |
| CostAnalysis.SystemCosts | components/views/CostAnalysis.tsx:8-16 | the table holds one row per system: a permutation of the per-system rows, most expensive first |
| CostAnalysis.RowFacts | components/views/CostAnalysis.tsx:9-14 | every displayed row belongs to a system of the catalogue, its cost is that system's base plus per-user price times its head count, and its head count is at most the number of employees |
| CostAnalysis.TotalMonthlyCost | components/views/CostAnalysis.tsx:18 | the total is the sum of the per-system costs, independent of the sort |
| CostAnalysis.Legend | components/views/CostAnalysis.tsx:69 | `slice(0, 3)`: a prefix of the rows with min(3, number of rows) entries |
| CostAnalysis.CostIsNonNegative | components/views/CostAnalysis.tsx:10 | with non-negative prices a system's cost is non-negative |
| CostAnalysis.TotalBoundsNonNegativeRows | components/views/CostAnalysis.tsx:18 | a sum of non-negative rows is non-negative and at least each row |
| CostAnalysis.TotalBounds | components/views/CostAnalysis.tsx:10-18 | with non-negative prices the total is at least 0 and at least the cost of every row |
| CostAnalysis.LegendIsMostExpensive | components/views/CostAnalysis.tsx:69 | the legend is the first min(3, number of systems) rows, and no row outside it costs more than a row in it |
| Dashboard.MonthlyTotal | components/views/Dashboard.tsx:23-26 | with non-negative prices the reduce gives a non-negative total |
| Dashboard.MonthlyTotalIsRowTotal | components/views/Dashboard.tsx:23-26 | the left-to-right reduce equals the sum of the per-system rows |
| Dashboard.MonthlyTotalMatchesCostView | components/views/Dashboard.tsx:22-26 | the dashboard's monthly total equals the cost view's total for the same data |
| Dashboard.NeedsAttention | components/views/Dashboard.tsx:28 | a system raises an alert when it is under review or has at least one issue |
| Dashboard.ActiveAlerts | components/views/Dashboard.tsx:28 | the alert count is at most the number of systems, 0 exactly when no system is under review or has issues, all exactly when every one does |
| Dashboard.RoleCount | components/views/Dashboard.tsx:33-35 | a role's count is at most the number of employees and 0 exactly when nobody has the role |
| Dashboard.DistinctRoles | components/views/Dashboard.tsx:36 | the dictionary's keys in first-appearance order contain no duplicates |
| Dashboard.DistinctRolesMembers | components/views/Dashboard.tsx:32-36 | a role is a key exactly when some employee has it |
| Dashboard.CountRoles | components/views/Dashboard.tsx:32-35 | the loop builds a dictionary whose keys are exactly the distinct roles and whose value for each is that role's head count |
| Dashboard.RoleData | components/views/Dashboard.tsx:31-37 | one bar per distinct role in key order, named by the role's first word, each counting at least one employee, the counts summing to the number of employees |
| Dashboard.RoleBarFacts | components/views/Dashboard.tsx:31-37 | bars for the distinct roles each count someone and together count everyone |
| Dashboard.RoleCountsCoverStaff | components/views/Dashboard.tsx:32-36 | the head counts of the distinct roles add up to the number of employees |
| Dashboard.StaffAt | components/views/Dashboard.tsx:44 | a clinic's head count is at most the number of employees |
| Dashboard.ClinicLabel | components/views/Dashboard.tsx:43 | the label removes at most the first group prefix and the first clinic word: never longer than the name, and the name itself when it contains neither |
| Dashboard.ClinicData | components/views/Dashboard.tsx:40-47 | one slice per clinic in clinic order, labelled with the shortened name and counting the employees of that clinic |
| Dashboard.StaffAtAny | components/views/Dashboard.tsx:44 | the employees at any of a set of clinics number at most all employees, and all of them when every employee's clinic is in the set |
| Dashboard.StaffAtAnyAddId | components/views/Dashboard.tsx:44 | adding a new clinic id adds exactly that clinic's head count |
| Dashboard.ClinicCountsSum | components/views/Dashboard.tsx:40-47 | with distinct clinic ids the slices add up to the staff at the listed clinics, hence to at most the number of employees, and to exactly that when every employee's clinic is listed |
| Dashboard.EmploymentCount | components/views/Dashboard.tsx:88 | the count of one employment type is at most the number of employees |
| Dashboard.StaffBreakdown | components/views/Dashboard.tsx:88 | the full-time and part-time counts add up to the staff total |
| SuperAdminDashboard.PlanFee | components/views/SuperAdminDashboard.tsx:13-16 | a plan's fee lies between 0 and 100000 and is 0 exactly for the free plan |
| SuperAdminDashboard.TotalMRR | components/views/SuperAdminDashboard.tsx:12-18 | revenue lies between 0 and 100000 times the number of tenants |
| SuperAdminDashboard.PlanCount | components/views/SuperAdminDashboard.tsx:15-16 | the number of tenants on a plan is at most the number of tenants |
| SuperAdminDashboard.MRRByPlan | components/views/SuperAdminDashboard.tsx:12-18 | revenue is 30000 per Pro tenant plus 100000 per Enterprise tenant |
| SuperAdminDashboard.MRRAdditive | components/views/SuperAdminDashboard.tsx:12-18 | the revenue of two concatenated tenant lists is the sum of their revenues |
| SuperAdminDashboard.MRROrderIndependent | components/views/SuperAdminDashboard.tsx:12-18 | any permutation of the tenants has the same revenue |
| SuperAdminDashboard.TotalUsers | components/views/SuperAdminDashboard.tsx:20 | the sum of the tenants' employee counts, at least the count of every single tenant |
| SuperAdminDashboard.ChartData | components/views/SuperAdminDashboard.tsx:22-26 | one entry per tenant in tenant order, with its name, head count and number of systems |
| SuperAdminDashboard.ChartMatchesTotalUsers | components/views/SuperAdminDashboard.tsx:20-26 | the chart's user bars add up to the user total |
| UserDirectory.Matches | components/views/UserDirectory.tsx:8-12 | an employee matches when the term occurs in the last name, the first name or the email |
| UserDirectory.FilterEmployees | components/views/UserDirectory.tsx:8-12 | the result is a subsequence of the employees, at most as long, holding exactly the employees whose last name, first name or email contains the term |
| UserDirectory.EmptySearchKeepsAll | components/views/UserDirectory.tsx:8-12 | an empty term keeps every employee |
| UserDirectory.NarrowingSearch | components/views/UserDirectory.tsx:8-12 | when term s occurs in term t, the result for t is a subsequence of the result for s |
| UserDirectory.FilterIdempotent | components/views/UserDirectory.tsx:8-12 | filtering the filtered list again with the same term changes nothing |
| UserDirectory.FindClinic | components/views/UserDirectory.tsx:61 | `find` by id: none when no clinic has the id, otherwise the first clinic that has it |
| UserDirectory.ClinicName | components/views/UserDirectory.tsx:61 | the name of the first clinic with the id, or 不明 when there is none or its name is empty; never empty |
| UserDirectory.FindSystem | components/views/UserDirectory.tsx:87 | `find` by id: none when no system has the id, otherwise the first system that has it |
| UserDirectory.SystemBadge | components/views/UserDirectory.tsx:86-90 | one character: the first character of the first matching system's name, or ? when there is no match or the name is empty |
| NotificationContext.Without | contexts/NotificationContext.tsx:32 | filtering by id removes every entry with the id, keeps every other entry with its multiplicity and order, and never lengthens the list |
| NotificationContext.WithoutUnusedId | contexts/NotificationContext.tsx:32 | removing an id nobody carries leaves the list unchanged |
| NotificationContext.WithoutIdempotent | contexts/NotificationContext.tsx:32 | removing the same id twice equals removing it once |
| NotificationContext.WithoutAppend | contexts/NotificationContext.tsx:32 | removal distributes over concatenation |
| NotificationContext.NotifyThenRemove | contexts/NotificationContext.tsx:22-27 | appending an entry with an unused id and then removing that id restores the previous list |
| NotificationContext.NotificationCenter.constructor | contexts/NotificationContext.tsx:19 | the provider starts with no notifications |
| NotificationContext.NotificationCenter.Notify | contexts/NotificationContext.tsx:21-23 | exactly one entry with the given id, type and message is appended, earlier entries unchanged |
| NotificationContext.NotificationCenter.RemoveNotification | contexts/NotificationContext.tsx:31-33 | the list becomes the old list with that id filtered out |
| NotificationContext.UseNotification | contexts/NotificationContext.tsx:71-77 | outside a provider the hook fails with its error message; inside one it returns the provider's context |
| OnboardingWizard.RemoveName | components/OnboardingWizard.tsx:20 | the name no longer occurs, every other name keeps its multiplicity, and the result is a subsequence |
| OnboardingWizard.Toggle | components/OnboardingWizard.tsx:18-21 | an absent name is appended at the end; a present one is removed entirely while the others keep their order and multiplicity |
| OnboardingWizard.ToggleKeepsNoDuplicates | components/OnboardingWizard.tsx:18-21 | toggling keeps a duplicate-free selection duplicate-free |
| OnboardingWizard.RemoveAppendedName | components/OnboardingWizard.tsx:20 | removing a name just appended to a list without it gives the list back |
| OnboardingWizard.ToggleTwiceRestores | components/OnboardingWizard.tsx:18-21 | toggling an absent name twice restores the selection exactly |
| OnboardingWizard.FindPreset | components/OnboardingWizard.tsx:29 | `find` by name: none when no preset has the name, otherwise the first preset that has it |
| OnboardingWizard.NewSystem | components/OnboardingWizard.tsx:31-43 | the record carries the given id, copies name, category, url and both prices from the preset, and starts active, owned by the administrator, without vendor contact, issues or contract link, with the given renewal date |
| OnboardingWizard.Names | components/OnboardingWizard.tsx:33 | the names of the systems, one per system, in order |
| OnboardingWizard.Matched | components/OnboardingWizard.tsx:28-30 | the selected names with a preset: a subsequence of the selection holding exactly those names |
| OnboardingWizard.Planned | components/OnboardingWizard.tsx:28-46 | at most one system is written per selected name |
| OnboardingWizard.PlannedNames | components/OnboardingWizard.tsx:28-46 | the written systems carry the selected names that have a preset, in selection order, so names without a preset are skipped |
| OnboardingWizard.PlannedCopiesPresets | components/OnboardingWizard.tsx:29-43 | each written system copies name, category, url and both prices from the first preset of its name, and starts active, without issues, owned by 管理者, with an empty vendor contact |
| OnboardingWizard.PlannedAppend | components/OnboardingWizard.tsx:28-46 | the plan of a concatenated selection is the concatenation of the plans |
| OnboardingWizard.AtMostOneSystemPerName | components/OnboardingWizard.tsx:28-46 | with a duplicate-free selection no name is written twice |
| OnboardingWizard.PlannedStep | components/OnboardingWizard.tsx:28-46 | one more loop iteration extends the plan by that name's write, if any |
| OnboardingWizard.FailedWriteIsPlanned | components/OnboardingWizard.tsx:44-52 | when a write fails, what was written before it is a proper prefix of the plan |
| OnboardingWizard.Wizard.constructor | components/OnboardingWizard.tsx:14-15 | the wizard starts with an empty selection, not submitting, nothing written, not completed |
| OnboardingWizard.Wizard.ToggleSystem | components/OnboardingWizard.tsx:18-22 | the selection becomes its toggle and nothing else changes |
| OnboardingWizard.Wizard.WriteSelectedSystems | components/OnboardingWizard.tsx:28-46 | the loop fails exactly when the failing write index lies inside the plan, and then has written the plan up to that write, otherwise the whole plan |
| OnboardingWizard.Wizard.HandleFinish | components/OnboardingWizard.tsx:24-56 | on success the whole plan is written, success is announced and onComplete runs once, and when onComplete throws an error is announced right after the success; on a failed write the plan's prefix before it is written, only an error is announced and onComplete does not run; in every case it ends not submitting |
| TenantStore.InitialTenants | services/db.ts:11-38 | two demo tenants with distinct ids, both with the default governance |
| TenantStore.InitialRevenue | services/db.ts:11-38 | the demo tenants bring in 130000 a month, one Pro and one Enterprise plan, and have the constant staff plus two users |
| TenantStore.Migrate | services/db.ts:59-62 | a tenant keeps its governance or gets the default, and no other field changes |
| TenantStore.MigrateAll | services/db.ts:70-73 | the migration preserves length and order, applies to each tenant, and leaves every tenant governed |
| TenantStore.MigrateAllGoverned | services/db.ts:59-62 | a list whose tenants are all governed is left exactly as it is |
| TenantStore.MigrateAllIdempotent | services/db.ts:59-62 | migrating twice equals migrating once |
| TenantStore.LoadTenants | services/db.ts:42-83 | the remote value if the reply carries one, else the local copy if there is one, else the demo tenants, the first two migrated; an exception yields the demo tenants; every loaded tenant is governed |
| TenantStore.RemoteTakesPriority | services/db.ts:55-74 | a remote value shadows a different local copy |
| TenantStore.ReplyFor | services/db.ts:45-55 | only an exception makes the read throw; a delivered reply carries the row's value and an error reply carries none |
| TenantStore.LoadAfterSave | services/db.ts:86-97 | after a save that reached both places, every load that does not throw returns the saved list |
| TenantStore.Store.constructor | services/db.ts:5-7 | the store starts with the given local and remote values and no writes |
| TenantStore.Store.GetTenants | services/db.ts:42-83 | a load returns the value of the loading function for the current remote row and local copy and changes nothing |
| TenantStore.Store.SaveTenants | services/db.ts:86-107 | the local copy is written before the remote row; a throwing local write skips the remote one; a failing remote write keeps the local copy; no error escapes |
| TenantStore.Store.Reset | services/db.ts:110-114 | the local copy is removed, the demo tenants are saved, and the demo tenants are returned whatever the save did; when the unguarded removal throws, the call rejects and neither store nor the write log changes |
| TenantStore.LoadAfterReset | services/db.ts:110-114 | after a reset whose writes succeeded, every load that does not throw returns the demo tenants |

## Left out

- Rendering is not modelled. That covers JSX, charts, icons, CSS class choices and `toLocaleString` formatting, which are user interface only.
- Floating-point arithmetic is not modelled:
  - the per-person cost `Math.round(total / EMPLOYEES.length)`;
  - the legend's percentage share.
- Money is whole yen on unbounded integers. The source uses JavaScript numbers, which lose precision above 2^53; that is not modelled.
- The clock and randomness are parameters:
  - the random notification id;
  - the `s_<time>_<random>` system ids;
  - the renewal date one year ahead.
- HandleFinish: one renewal date is used for the whole loop. The source recomputes it on every iteration, so a loop running across midnight could give different dates.
- Timers are not modelled. The five-second auto-dismiss a notification schedules is the same filter as `RemoveNotification`, called explicitly here.
- Asynchrony is not modelled. That covers React state batching, overlapping `handleFinish` or `saveTenants` calls, and the interleaving of the auto-dismiss timer with other updates.
- Storage contents are abstract:
  - the remote client and local storage are the fields of `Store`;
  - `JSON.parse` either yields a well-formed tenant list or throws (`Corrupt`);
  - dropping `undefined` fields in a JSON round trip is not modelled.
- Logging is left out, including the check for the "row not found" error code, which only chooses what is logged.
- `db.upsertSystem`, which the wizard calls, is not part of this model. Each call is an entry of the wizard's `upserted` log, and the index of the call that throws is a parameter. The data module at services/db.ts:40-114 defines only `getTenants`, `saveTenants` and `reset`, so as written the wizard's first write for a matched preset throws. That is `HandleFinish` with `failAt` equal to `Some(0)`: nothing is written, only the error toast appears, and `onComplete` does not run.
- The application's constants module (clinics, employees, systems, presets, governance rules) is not part of this model. Its values are parameters.
- TenantStore.InitialTenants: requires at least one system and two employees. The source indexes `SYSTEMS[0]`, `EMPLOYEES[0]` and `EMPLOYEES[1]` directly, and otherwise would store `undefined` entries.
- Dashboard.ClinicCountsSum: requires distinct clinic ids. With a repeated id, that clinic's staff are counted once per repetition, and the sum can exceed the number of employees.
- Dashboard.DistinctRoles: keys are ordered by first appearance. JavaScript lists integer-like keys first in ascending order, and roles named after `Object.prototype` members misbehave; neither is modelled.
- Dashboard.ClinicLabel: the two `replace` calls are modelled, but only the length bound and the unchanged-name case are proved about the resulting text.
- The cost view's sort is modelled as stable, as ECMAScript 2019 requires, but stability is not stated as a property.
- Strings are Dafny character sequences. JavaScript's UTF-16 code units differ for characters outside the Basic Multilingual Plane, which affects the one-character system badge.
- Other views and components are not part of this model: sign-in, layout, tab switching, the catalogue, governance and clinic management forms. They are form and tab plumbing. The clinic management staff count repeats `Dashboard.StaffAt`.
