/**
  The lead pipeline engine shared by the Leads page (src/pages/Leads.jsx)
  and the pipeline board on the home page (src/components/MainFeature.jsx):
  the lead record, the search-and-status filter, the six stage columns, and
  the pure list transformations behind adding, re-staging, editing and
  deleting a lead. Timestamps are milliseconds since the epoch; `now` is the
  value of the clock when a handler runs.
*/
module LeadPipeline {
  import opened Common
  import Text
  import JsNumber
  import Board

  /** A lead's property wishes (`propertyPreferences`). */
  datatype Preferences = Preferences(kind: string, bedrooms: int, bathrooms: int, location: string)

  datatype Lead = Lead(
    id: string,
    firstName: string,
    lastName: string,
    email: string,
    phone: string,
    source: string,
    status: string,
    assignedAgent: string,
    preferences: Preferences,
    budget: int,
    createdAt: int,
    lastContact: int,
    notes: string)

  /** What the add-lead form hands to `addNewLead`: its fields, with the budget already converted. */
  datatype LeadDraft = LeadDraft(
    firstName: string,
    lastName: string,
    email: string,
    phone: string,
    source: string,
    preferences: Preferences,
    budget: int,
    notes: string)

  /** The add-lead form's state; the budget is still the text typed into the field. */
  datatype LeadForm = LeadForm(
    firstName: string,
    lastName: string,
    email: string,
    phone: string,
    source: string,
    preferences: Preferences,
    budget: string,
    notes: string)

  /** The fields an update carries: `None` for a key the update object does not have. */
  datatype LeadPatch = LeadPatch(
    id: Option<string>,
    firstName: Option<string>,
    lastName: Option<string>,
    email: Option<string>,
    phone: Option<string>,
    source: Option<string>,
    status: Option<string>,
    assignedAgent: Option<string>,
    preferences: Option<Preferences>,
    budget: Option<int>,
    createdAt: Option<int>,
    lastContact: Option<int>,
    notes: Option<string>)

  /** The pipeline stages, in display order (`pipelineStages[*].status`). */
  const Stages: seq<string> := ["new", "contacted", "qualified", "proposal", "won", "lost"]

  /** The agent every new lead is assigned to. */
  const DefaultAgent: string := "Agent Demo"

  /** The status filter value that disables the status filter. */
  const AllStatuses: string := "all"

  function LeadStatus(l: Lead): string
  {
    l.status
  }

  /** The stage names are pairwise different, so the columns cannot overlap. */
  lemma StagesDistinct()
    ensures Board.Distinct(Stages)
  {
  }

  // ---------------------------------------------------------------- filter

  /** The search box matches the first name, the last name or the e-mail, ignoring case. */
  predicate MatchesSearch(l: Lead, term: string)
  {
    Text.Matches(l.firstName, term) || Text.Matches(l.lastName, term) || Text.Matches(l.email, term)
  }

  /** The status filter passes every lead when set to "all", otherwise only that status. */
  predicate MatchesStatus(l: Lead, filter: string)
  {
    filter == AllStatuses || l.status == filter
  }

  function Visible(term: string, filter: string): Lead -> bool
  {
    l => MatchesSearch(l, term) && MatchesStatus(l, filter)
  }

  /** `filteredLeads`: the leads the search term and the status filter both let through, in list order. */
  function FilteredLeads(leads: seq<Lead>, term: string, filter: string): (r: seq<Lead>)
    ensures |r| <= |leads|
    ensures forall i :: 0 <= i < |r| ==> r[i] in leads && MatchesSearch(r[i], term) && MatchesStatus(r[i], filter)
    ensures forall i :: 0 <= i < |leads| && MatchesSearch(leads[i], term) && MatchesStatus(leads[i], filter)
              ==> leads[i] in r
  {
    Board.Select(leads, Visible(term, filter))
  }

  /** The filtered list keeps the order of the lead list. */
  lemma FilteredKeepsOrder(leads: seq<Lead>, term: string, filter: string)
    ensures Board.IsSubsequence(FilteredLeads(leads, term, filter), leads)
  {
    Board.SelectIsSubsequence(leads, Visible(term, filter));
  }

  /** An empty search with the filter on "all" shows the whole list, in order. */
  lemma EmptySearchShowsAll(leads: seq<Lead>)
    ensures FilteredLeads(leads, "", AllStatuses) == leads
  {
    forall i | 0 <= i < |leads| ensures Visible("", AllStatuses)(leads[i]) {
      Text.IncludesEmpty(Text.Lower(leads[i].firstName));
    }
    Board.SelectAll(leads, Visible("", AllStatuses));
  }

  // ---------------------------------------------------------------- columns

  /** `getLeadsByStatus(status)`: the filtered leads in that stage, in filtered order. */
  function LeadsByStatus(filtered: seq<Lead>, status: string): (r: seq<Lead>)
    ensures forall i :: 0 <= i < |r| ==> r[i] in filtered && r[i].status == status
    ensures forall i :: 0 <= i < |filtered| && filtered[i].status == status ==> filtered[i] in r
  {
    Board.Column(filtered, LeadStatus, status)
  }

  /**
    The six columns together hold exactly the filtered leads whose status is
    a stage, each as often as it is in the filtered list, so the column counts
    add up to the number of such leads.
  */
  lemma PipelinePartition(leads: seq<Lead>, term: string, filter: string)
    ensures var f := FilteredLeads(leads, term, filter);
      && multiset(Board.Columns(f, LeadStatus, Stages)) == multiset(Board.Select(f, Board.InStages(LeadStatus, Stages)))
      && |Board.Columns(f, LeadStatus, Stages)| == |Board.Select(f, Board.InStages(LeadStatus, Stages))|
  {
    StagesDistinct();
    var f := FilteredLeads(leads, term, filter);
    Board.ColumnsPartition(f, LeadStatus, Stages);
    Board.ColumnSizesAddUp(f, LeadStatus, Stages);
  }

  /** A filtered lead in one of the six stages sits in exactly one column. */
  lemma LeadInOneColumn(filtered: seq<Lead>, l: Lead)
    requires l in filtered && l.status in Stages
    ensures |set k | 0 <= k < |Stages| && l in LeadsByStatus(filtered, Stages[k])| == 1
  {
    var k :| 0 <= k < |Stages| && Stages[k] == l.status;
    assert l in LeadsByStatus(filtered, Stages[k]) by {
      var j :| 0 <= j < |filtered| && filtered[j] == l;
    }
    assert (set k' | 0 <= k' < |Stages| && l in LeadsByStatus(filtered, Stages[k'])) == {k};
  }

  // ---------------------------------------------------------------- creation

  /** `addNewLead`'s record: the draft's fields, then the forced status, agent and clock stamps. */
  function NewLead(draft: LeadDraft, id: string, now: int): (l: Lead)
    ensures l.status == "new" && l.assignedAgent == DefaultAgent
    ensures l.createdAt == now && l.lastContact == now
    ensures l.id == id && l.firstName == draft.firstName && l.lastName == draft.lastName
    ensures l.email == draft.email && l.phone == draft.phone && l.source == draft.source
    ensures l.preferences == draft.preferences && l.budget == draft.budget && l.notes == draft.notes
  {
    Lead(id, draft.firstName, draft.lastName, draft.email, draft.phone, draft.source, "new",
         DefaultAgent, draft.preferences, draft.budget, now, now, draft.notes)
  }

  const RequiredFieldsMessage: string := "Please fill in required fields"

  /**
    `AddLeadForm.handleSubmit`: rejects the form when the first name, the
    last name or the e-mail is empty (no trimming: blanks pass), otherwise
    submits the fields with the budget read as `parseInt(budget) || 0`.
  */
  function SubmitLeadForm(form: LeadForm): (r: Result<LeadDraft>)
    ensures r.Err? <==> form.firstName == [] || form.lastName == [] || form.email == []
    ensures r.Err? ==> r.message == RequiredFieldsMessage
    ensures r.Ok? ==> r.value.budget == JsNumber.ParseIntOrZero(form.budget)
    ensures r.Ok? ==> r.value.firstName == form.firstName && r.value.lastName == form.lastName
                      && r.value.email == form.email && r.value.phone == form.phone
                      && r.value.source == form.source && r.value.preferences == form.preferences
                      && r.value.notes == form.notes
  {
    if form.firstName == [] || form.lastName == [] || form.email == [] then Err(RequiredFieldsMessage)
    else Ok(LeadDraft(form.firstName, form.lastName, form.email, form.phone, form.source,
                      form.preferences, JsNumber.ParseIntOrZero(form.budget), form.notes))
  }

  /**
    A submitted form with a decimal budget yields a draft with that integer
    budget, and the lead built from it starts in "new", with the default
    agent and both stamps at the clock.
  */
  lemma SubmittedLeadScenario(form: LeadForm, n: nat, id: string, now: int)
    requires form.firstName != [] && form.lastName != [] && form.email != []
    requires form.budget == JsNumber.Decimal(n)
    ensures SubmitLeadForm(form).Ok?
    ensures var l := NewLead(SubmitLeadForm(form).value, id, now);
      l.budget == n && l.status == "new" && l.assignedAgent == DefaultAgent && l.createdAt == l.lastContact == now
  {
    JsNumber.BudgetOfNumeral(n);
  }

  /**
    Names made only of blanks are accepted, and kept as typed, next to a
    well-formed e-mail address: the form does not trim.
  */
  lemma BlankNamesAccepted(form: LeadForm)
    requires form.firstName != [] && form.lastName != [] && form.email == "sarah.johnson@email.com"
    requires Text.Trim(form.firstName) == [] && Text.Trim(form.lastName) == []
    ensures SubmitLeadForm(form).Ok?
    ensures SubmitLeadForm(form).value.firstName == form.firstName
    ensures SubmitLeadForm(form).value.lastName == form.lastName
  {
  }

  /**
    The budget as an amount of money, which is never negative: the form's
    reading, with a negative entry (which the code keeps) read as 0.
  */
  function IntendedBudget(text: string): (r: nat)
    ensures JsNumber.ParseIntOrZero(text) >= 0 ==> r == JsNumber.ParseIntOrZero(text)
    ensures JsNumber.ParseIntOrZero(text) < 0 ==> r == 0
  {
    var b := JsNumber.ParseIntOrZero(text);
    if b < 0 then 0 else b
  }

  /** The form's submission with the non-negative budget: the same decision, a budget that is never negative. */
  function SubmitLeadFormIntended(form: LeadForm): (r: Result<LeadDraft>)
    ensures r.Err? <==> SubmitLeadForm(form).Err?
    ensures r.Ok? ==> r.value == SubmitLeadForm(form).value.(budget := IntendedBudget(form.budget))
    ensures r.Ok? ==> r.value.budget >= 0
  {
    match SubmitLeadForm(form)
    case Err(message) => Err(message)
    case Ok(draft) => Ok(draft.(budget := IntendedBudget(form.budget)))
  }

  /**
    The non-negative budget agrees with the code on every entry without a
    leading minus sign, and differs from it on a signed numeral.
  */
  lemma IntendedBudgetAgrees(text: string, n: nat)
    requires n > 0
    ensures (Text.TrimStart(text) == [] || Text.TrimStart(text)[0] != '-') ==>
      IntendedBudget(text) == JsNumber.ParseIntOrZero(text)
    ensures JsNumber.ParseIntOrZero("-" + JsNumber.Decimal(n)) == -(n as int)
    ensures IntendedBudget("-" + JsNumber.Decimal(n)) == 0
  {
    JsNumber.ParseIntSign(text);
    JsNumber.NegativeBudget(n);
  }

  // ---------------------------------------------------------------- status change

  function HasId(id: string): Lead -> bool
  {
    (l: Lead) => l.id == id
  }

  /** The record a status change makes of a matching lead. */
  function Restaged(status: string, now: int): Lead -> Lead
  {
    (l: Lead) => l.(status := status, lastContact := now)
  }

  /**
    `updateLeadStatus`'s list: the leads with the id (ids need not be
    unique) take the new status and are stamped with the clock; the others
    are kept, and so are the length and the order.
  */
  function WithStatus(leads: seq<Lead>, id: string, status: string, now: int): (r: seq<Lead>)
    ensures |r| == |leads|
    ensures forall i :: 0 <= i < |leads| ==>
      r[i] == if leads[i].id == id then leads[i].(status := status, lastContact := now) else leads[i]
  {
    Board.UpdateWhere(leads, HasId(id), Restaged(status, now))
  }

  /** The ids of the leads, in list order. */
  function Ids(leads: seq<Lead>): (r: seq<string>)
    ensures |r| == |leads| && forall i :: 0 <= i < |leads| ==> r[i] == leads[i].id
  {
    if leads == [] then [] else [leads[0].id] + Ids(leads[1..])
  }

  /** A status change neither adds, removes nor reorders leads: the id sequence is unchanged. */
  lemma WithStatusKeepsIds(leads: seq<Lead>, id: string, status: string, now: int)
    ensures Ids(WithStatus(leads, id, status, now)) == Ids(leads)
  {
  }

  /** An unknown id changes nothing. */
  lemma WithStatusUnknownId(leads: seq<Lead>, id: string, status: string, now: int)
    requires forall i :: 0 <= i < |leads| ==> leads[i].id != id
    ensures WithStatus(leads, id, status, now) == leads
  {
  }

  /** After the change every lead with the id shows in the target column and in no other. */
  lemma WithStatusMovesCard(leads: seq<Lead>, id: string, status: string, now: int, other: string)
    requires other != status
    ensures var r := WithStatus(leads, id, status, now);
      && (forall i :: 0 <= i < |r| && r[i].id == id ==> r[i] in LeadsByStatus(r, status))
      && (forall x :: x in LeadsByStatus(r, other) ==> x.id != id)
  {
    var r := WithStatus(leads, id, status, now);
    forall x | x in LeadsByStatus(r, other) ensures x.id != id {
      var k :| 0 <= k < |LeadsByStatus(r, other)| && LeadsByStatus(r, other)[k] == x;
      assert x in r && x.status == other;
    }
  }

  /** Setting the same status twice equals setting it once at the later time. */
  lemma WithStatusIdempotent(leads: seq<Lead>, id: string, status: string, t1: int, t2: int)
    ensures WithStatus(WithStatus(leads, id, status, t1), id, status, t2) == WithStatus(leads, id, status, t2)
  {
    Board.UpdateTwice(leads, HasId(id), Restaged(status, t1), Restaged(status, t2), Restaged(status, t2));
  }

  // ---------------------------------------------------------------- timestamps

  /** Every lead was last contacted no earlier than it was created. */
  predicate ContactAfterCreation(leads: seq<Lead>)
  {
    forall i :: 0 <= i < |leads| ==> leads[i].createdAt <= leads[i].lastContact
  }

  /** No lead was created after `now`: the clock has not gone back. */
  predicate CreatedBy(leads: seq<Lead>, now: int)
  {
    forall i :: 0 <= i < |leads| ==> leads[i].createdAt <= now
  }

  /** A status change at a clock no earlier than any creation keeps `lastContact >= createdAt`. */
  lemma WithStatusKeepsContactOrder(leads: seq<Lead>, id: string, status: string, now: int)
    requires ContactAfterCreation(leads) && CreatedBy(leads, now)
    ensures ContactAfterCreation(WithStatus(leads, id, status, now))
  {
  }

  /** Appending a new lead keeps `lastContact >= createdAt`. */
  lemma AddKeepsContactOrder(leads: seq<Lead>, draft: LeadDraft, id: string, now: int)
    requires ContactAfterCreation(leads)
    ensures ContactAfterCreation(leads + [NewLead(draft, id, now)])
  {
  }

  // ---------------------------------------------------------------- edit

  function Pick<T>(o: Option<T>, current: T): T
  {
    match o
    case Some(v) => v
    case None => current
  }

  /** `{ ...lead, ...data, lastContact: new Date() }`: the patch's keys win, then the clock stamp wins over both. */
  function Overlay(l: Lead, p: LeadPatch, now: int): (r: Lead)
    ensures r.lastContact == now
    ensures r.status == Pick(p.status, l.status) && r.id == Pick(p.id, l.id)
    ensures r.createdAt == Pick(p.createdAt, l.createdAt)
    ensures r.firstName == Pick(p.firstName, l.firstName) && r.lastName == Pick(p.lastName, l.lastName)
    ensures r.email == Pick(p.email, l.email) && r.phone == Pick(p.phone, l.phone)
    ensures r.source == Pick(p.source, l.source) && r.assignedAgent == Pick(p.assignedAgent, l.assignedAgent)
    ensures r.preferences == Pick(p.preferences, l.preferences) && r.budget == Pick(p.budget, l.budget)
    ensures r.notes == Pick(p.notes, l.notes)
  {
    Lead(Pick(p.id, l.id), Pick(p.firstName, l.firstName), Pick(p.lastName, l.lastName),
         Pick(p.email, l.email), Pick(p.phone, l.phone), Pick(p.source, l.source),
         Pick(p.status, l.status), Pick(p.assignedAgent, l.assignedAgent),
         Pick(p.preferences, l.preferences), Pick(p.budget, l.budget),
         Pick(p.createdAt, l.createdAt), now, Pick(p.notes, l.notes))
  }

  /** A patch with no keys. */
  const NoChanges: LeadPatch := LeadPatch(None, None, None, None, None, None, None, None, None, None, None, None, None)

  /** A whole lead record used as an update, as the detail view's save does. */
  function FullPatch(l: Lead): LeadPatch
  {
    LeadPatch(Some(l.id), Some(l.firstName), Some(l.lastName), Some(l.email), Some(l.phone),
              Some(l.source), Some(l.status), Some(l.assignedAgent), Some(l.preferences),
              Some(l.budget), Some(l.createdAt), Some(l.lastContact), Some(l.notes))
  }

  /** A whole-record update replaces the lead by that record, except that `lastContact` is the clock. */
  lemma OverlayFullPatch(l: Lead, d: Lead, now: int)
    ensures Overlay(l, FullPatch(d), now) == d.(lastContact := now)
  {
  }

  /** An update with no keys only stamps `lastContact`; a status-only patch is a status change. */
  lemma OverlayPartial(l: Lead, status: string, now: int)
    ensures Overlay(l, NoChanges, now) == l.(lastContact := now)
    ensures Overlay(l, NoChanges.(status := Some(status)), now) == Restaged(status, now)(l)
  {
  }

  /** `updateLead`'s list: every lead with the id is overlaid with the patch and stamped; the others are kept. */
  function Edited(leads: seq<Lead>, id: string, p: LeadPatch, now: int): (r: seq<Lead>)
    ensures |r| == |leads|
    ensures forall i :: 0 <= i < |leads| ==> r[i] == if leads[i].id == id then Overlay(leads[i], p, now) else leads[i]
  {
    Board.UpdateWhere(leads, HasId(id), l => Overlay(l, p, now))
  }

  /**
    Saving a snapshot taken earlier overwrites the matching leads with the
    snapshot (stamped with the clock), discarding a status change made since
    the snapshot was taken.
  */
  lemma SaveSnapshotRestoresIt(leads: seq<Lead>, snapshot: Lead, status: string, t1: int, t2: int)
    ensures var r := Edited(WithStatus(leads, snapshot.id, status, t1), snapshot.id, FullPatch(snapshot), t2);
      forall i :: 0 <= i < |r| && leads[i].id == snapshot.id ==> r[i] == snapshot.(lastContact := t2)
  {
  }

  /** An edit keeps `lastContact >= createdAt` unless the patch moves `createdAt` past the clock. */
  lemma EditKeepsContactOrder(leads: seq<Lead>, id: string, p: LeadPatch, now: int)
    requires ContactAfterCreation(leads) && CreatedBy(leads, now)
    requires p.createdAt.Some? ==> p.createdAt.value <= now
    ensures ContactAfterCreation(Edited(leads, id, p, now))
  {
  }

  // ---------------------------------------------------------------- delete

  function LeadId(l: Lead): string
  {
    l.id
  }

  /** `deleteLead`'s list: every lead with the id goes, the rest stay in order. */
  function Removed(leads: seq<Lead>, id: string): (r: seq<Lead>)
    ensures forall i :: 0 <= i < |r| ==> r[i] in leads && r[i].id != id
    ensures ContactAfterCreation(leads) ==> ContactAfterCreation(r)
    ensures forall now :: CreatedBy(leads, now) ==> CreatedBy(r, now)
  {
    Board.Remove(leads, LeadId, id)
  }

  // ---------------------------------------------------------------- badge colour

  /** The hue of a stage's badge; an unknown status falls back to the hue of "new". */
  function StageHue(status: string): string
  {
    if status == "contacted" then "yellow"
    else if status == "qualified" then "purple"
    else if status == "proposal" then "orange"
    else if status == "won" then "green"
    else if status == "lost" then "red"
    else "blue"
  }

  /** The badge classes for a hue, as spelled out in the colour table of `getStatusColor`. */
  function BadgeClasses(hue: string): (r: string)
    ensures |r| > 3 + |hue|
    ensures hue != [] ==> r[3] == hue[0]
    ensures r[..3] == "bg-" && r[3..3 + |hue|] == hue
  {
    "bg-" + hue + "-100 text-" + hue + "-800 dark:bg-" + hue + "-900/50 dark:text-" + hue + "-400"
  }

  /** The hue of each stage's badge in `getStatusColor`'s table, in stage order. */
  const Hues: seq<string> := ["blue", "yellow", "purple", "orange", "green", "red"]

  /**
    Property names every JavaScript object inherits from `Object.prototype`:
    looking one of them up in the colour table finds a built-in, not a
    missing key.
  */
  const InheritedKeys: seq<string> :=
    ["constructor", "toString", "toLocaleString", "valueOf", "hasOwnProperty", "isPrototypeOf",
     "propertyIsEnumerable", "__proto__", "__defineGetter__", "__defineSetter__",
     "__lookupGetter__", "__lookupSetter__"]

  /**
    `getStatusColor`: `colors[status] || colors.new`. Each stage gets the
    classes of its own hue; any other status that is not an inherited
    property name gets the classes of "new".
  */
  function StatusColor(status: string): (r: string)
    ensures forall k :: 0 <= k < |Stages| && status == Stages[k] ==> r == BadgeClasses(Hues[k])
    ensures status !in Stages && status !in InheritedKeys ==> r == BadgeClasses(Hues[0])
  {
    BadgeClasses(StageHue(status))
  }

  /** Each stage has its own badge colour: the classes differ in the hue's initial. */
  lemma StatusColorsDistinct()
    ensures forall i, j :: 0 <= i < j < |Stages| ==> StatusColor(Stages[i]) != StatusColor(Stages[j])
  {
    forall k | 0 <= k < |Stages| ensures StageHue(Stages[k]) == Hues[k] {
    }
    forall i, j | 0 <= i < j < |Stages| ensures StatusColor(Stages[i]) != StatusColor(Stages[j]) {
      assert Hues[i][0] != Hues[j][0];
    }
  }

  // ---------------------------------------------------------------- seed data

  /** `new Date('2024-01-<day>')`: midnight UTC of that January 2024 day, in milliseconds. */
  function Jan2024(day: int): int
  {
    1704067200000 + (day - 1) * 86400000
  }

  function SeedLead(id: string, first: string, last: string, email: string, phone: string, source: string,
                    status: string, prefs: Preferences, budget: int, created: int, contact: int, notes: string): Lead
  {
    Lead(id, first, last, email, phone, source, status, DefaultAgent, prefs, budget, Jan2024(created), Jan2024(contact), notes)
  }

  /** The sample leads the Leads page starts with. */
  function LeadsPageSeed(): seq<Lead>
  {
    [ SeedLead("1", "Sarah", "Johnson", "sarah.johnson@email.com", "+1 (555) 123-4567", "Website", "new",
               Preferences("House", 3, 2, "Downtown"), 450000, 15, 15, "Looking for family home near schools"),
      SeedLead("2", "Michael", "Chen", "michael.chen@email.com", "+1 (555) 987-6543", "Referral", "contacted",
               Preferences("Condo", 2, 2, "Waterfront"), 350000, 10, 16, "First-time buyer, pre-approved"),
      SeedLead("3", "Emily", "Rodriguez", "emily.rodriguez@email.com", "+1 (555) 456-7890", "Social Media", "qualified",
               Preferences("Apartment", 1, 1, "City Center"), 280000, 8, 17, "Investment property buyer"),
      SeedLead("4", "David", "Thompson", "david.thompson@email.com", "+1 (555) 321-9876", "Advertisement", "proposal",
               Preferences("Townhouse", 4, 3, "Suburbs"), 520000, 5, 18, "Looking to upgrade from current home"),
      SeedLead("5", "Lisa", "Martinez", "lisa.martinez@email.com", "+1 (555) 654-3210", "Cold Call", "won",
               Preferences("Commercial", 0, 2, "Business District"), 750000, 1, 19, "Business expansion, closed successfully") ]
  }

  /** The sample leads the home-page board starts with: the Leads page's first three. */
  function PipelineSeed(): seq<Lead>
  {
    LeadsPageSeed()[..3]
  }

  /**
    Both sample lists are well formed: every lead sits in a stage, ids are
    distinct, and no lead was contacted before it was created.
  */
  predicate WellFormedSeed(s: seq<Lead>)
  {
    && ContactAfterCreation(s)
    && (forall i :: 0 <= i < |s| ==> s[i].status in Stages)
    && (forall i, j :: 0 <= i < j < |s| ==> s[i].id != s[j].id)
  }

  lemma SeedIsWellFormed()
    ensures WellFormedSeed(LeadsPageSeed()) && WellFormedSeed(PipelineSeed())
    ensures |LeadsPageSeed()| == 5 && |PipelineSeed()| == 3
  {
    var s := LeadsPageSeed();
    SeedStaged(s);
    SeedIdsDistinct(s);
    WellFormedPrefix(s, 3);
  }

  lemma SeedStaged(s: seq<Lead>)
    requires s == LeadsPageSeed()
    ensures ContactAfterCreation(s) && forall i :: 0 <= i < |s| ==> s[i].status in Stages
  {
    assert s[0].status == Stages[0] && s[1].status == Stages[1] && s[2].status == Stages[2];
    assert s[3].status == Stages[3] && s[4].status == Stages[4];
  }

  lemma SeedIdsDistinct(s: seq<Lead>)
    requires s == LeadsPageSeed()
    ensures forall i, j :: 0 <= i < j < |s| ==> s[i].id != s[j].id
  {
    assert forall i :: 0 <= i < |s| ==> s[i].id == [('1' as int + i) as char];
  }

  /** The first leads of a well-formed list are well formed. */
  lemma WellFormedPrefix(s: seq<Lead>, n: nat)
    requires WellFormedSeed(s) && n <= |s|
    ensures WellFormedSeed(s[..n])
  {
  }
}
