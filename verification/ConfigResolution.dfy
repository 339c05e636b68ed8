/** Resolving a declared configuration against its shared hours and pricing, and laying stored
    settings over the result. A resolved configuration is itself a legal declaration, so one type
    serves both. */
module ConfigResolution {
  import opened Schema
  import opened Schedules

  type Surcharges = map<string, int>

  datatype SharedPricing = SharedPricing(surcharges: Surcharges, maxUnits: int, scope: Scope)

  datatype Inherited = Inherited(surcharges: bool, maxUnits: bool, scope: bool)

  datatype Formula = Formula(
    baseMinor: int,
    surcharges: Option<Surcharges>,
    maxUnits: Option<int>,
    scope: Option<Scope>,
    seatsPerUnit: Option<int>,
    inherited: Option<Inherited>)

  datatype Source = OwnSchedule | SharedHours

  datatype Service = Service(
    durationMin: int,
    pickupIds: set<string>,
    seats: Option<int>,
    schedule: Option<seq<Rule>>,
    source: Option<Source>,
    pricing: Formula)
  {
    // It declares rules of its own, and does not merely carry those of the shared block.
    predicate Owns() {
      source != Some(SharedHours) && schedule.Some?
    }
  }

  datatype Config = Config(hours: Option<seq<Rule>>, shared: SharedPricing, services: map<string, Service>)

  predicate AllParsed(rules: Option<seq<Rule>>) {
    rules.Some? ==> forall i | 0 <= i < |rules.value| :: rules.value[i].Parsed()
  }

  predicate ServiceParsed(s: Service) {
    1 <= s.durationMin && AllParsed(s.schedule)
  }

  predicate Parsed(c: Config) {
    AllParsed(c.hours) && forall slug | slug in c.services :: ServiceParsed(c.services[slug])
  }

  // ----- resolution

  function SurchargesView(table: Surcharges, pickupIds: set<string>): Surcharges {
    map id | id in table && id in pickupIds :: table[id]
  }

  method SurchargesFor(table: Surcharges, pickupIds: seq<string>) returns (surcharges: Surcharges)
    ensures surcharges == SurchargesView(table, set id | id in pickupIds)
  {
    surcharges := map[];
    for i := 0 to |pickupIds|
      invariant surcharges == SurchargesView(table, set id | id in pickupIds[..i])
    {
      if pickupIds[i] in table { surcharges := surcharges[pickupIds[i] := table[pickupIds[i]]]; }
    }
    assert pickupIds[..|pickupIds|] == pickupIds;
  }

  // A field is inherited when it is not declared, or when a claim that it was still matches.
  function ClaimsHold(f: Formula, pickupIds: set<string>, shared: SharedPricing): Inherited {
    var claims := f.inherited.GetOr(Inherited(false, false, false));
    Inherited(
      f.surcharges.None?
      || (claims.surcharges && SurchargesView(f.surcharges.value, pickupIds) == SurchargesView(shared.surcharges, pickupIds)),
      f.maxUnits.None? || (claims.maxUnits && f.maxUnits.value == shared.maxUnits),
      f.scope.None? || (claims.scope && f.scope.value == shared.scope))
  }

  function ResolvePricing(f: Formula, pickupIds: set<string>, seats: Option<int>, shared: SharedPricing): Formula {
    var inherited := ClaimsHold(f, pickupIds, shared);
    Formula(
      f.baseMinor,
      Some(SurchargesView(if inherited.surcharges then shared.surcharges else f.surcharges.value, pickupIds)),
      Some(if inherited.maxUnits then shared.maxUnits else f.maxUnits.value),
      Some(if inherited.scope then shared.scope else f.scope.value),
      Some(seats.GetOr(1)),
      Some(inherited))
  }

  function ResolveRules(rules: seq<Rule>, duration: int): (resolved: seq<Rule>)
    requires AllParsed(Some(rules))
    ensures |resolved| == |rules|
  {
    seq(|rules|, i requires 0 <= i < |rules| => ResolveScheduleRule(rules[i], duration))
  }

  function ResolveService(s: Service, hours: Option<seq<Rule>>, shared: SharedPricing): Service
    requires ServiceParsed(s) && AllParsed(hours)
  {
    s.(schedule := Some(ResolveRules(if s.Owns() then s.schedule.value else hours.GetOr([]), s.durationMin)),
       source := Some(if s.Owns() then OwnSchedule else SharedHours),
       pricing := ResolvePricing(s.pricing, s.pickupIds, s.seats, shared))
  }

  function Resolve(c: Config): Config
    requires Parsed(c)
  {
    c.(services := map slug | slug in c.services :: ResolveService(c.services[slug], c.hours, c.shared))
  }

  lemma ResolvedIsParsed(c: Config)
    requires Parsed(c)
    ensures Parsed(Resolve(c))
  {
    forall slug | slug in c.services ensures ServiceParsed(Resolve(c).services[slug]) {
      var s := c.services[slug];
      var rules := if s.Owns() then s.schedule.value else c.hours.GetOr([]);
      forall i | 0 <= i < |rules| ensures ResolveScheduleRule(rules[i], s.durationMin).Parsed() {
        ResolvingParses(rules[i], s.durationMin);
      }
    }
  }

  lemma ServiceResolvesOnce(s: Service, hours: Option<seq<Rule>>, shared: SharedPricing)
    requires ServiceParsed(s) && AllParsed(hours) && ServiceParsed(ResolveService(s, hours, shared))
    ensures ResolveService(ResolveService(s, hours, shared), hours, shared) == ResolveService(s, hours, shared)
  {
    var r := ResolveService(s, hours, shared);
    if s.Owns() { assert ResolveRules(r.schedule.value, s.durationMin) == r.schedule.value; }
    var table := if ClaimsHold(s.pricing, s.pickupIds, shared).surcharges then shared.surcharges else s.pricing.surcharges.value;
    assert SurchargesView(SurchargesView(table, s.pickupIds), s.pickupIds) == SurchargesView(table, s.pickupIds);
  }

  // A declared field stays as declared; one left out takes the shared block's value, and says so.
  lemma ResolvedReads(c: Config, slug: string)
    requires Parsed(c) && slug in c.services
    ensures Resolve(c).hours == c.hours && Resolve(c).shared == c.shared && Resolve(c).services.Keys == c.services.Keys
    ensures var s, r := c.services[slug], Resolve(c).services[slug];
            && r.durationMin == s.durationMin && r.pickupIds == s.pickupIds && r.seats == s.seats
            && r.pricing.baseMinor == s.pricing.baseMinor
            && r.pricing.seatsPerUnit == Some(if s.seats.Some? then s.seats.value else 1)
            && r.pricing.maxUnits == Some(if s.pricing.maxUnits.Some? then s.pricing.maxUnits.value else c.shared.maxUnits)
            && r.pricing.scope == Some(if s.pricing.scope.Some? then s.pricing.scope.value else c.shared.scope)
            && r.pricing.surcharges.Some?
            && (var table := if s.pricing.surcharges.Some? then s.pricing.surcharges.value else c.shared.surcharges;
                forall id :: (id in r.pricing.surcharges.value <==> id in s.pickupIds && id in table)
                             && (id in r.pricing.surcharges.value ==> r.pricing.surcharges.value[id] == table[id]))
    ensures var s, r := c.services[slug], Resolve(c).services[slug];
            r.pricing.inherited.Some?
            && (PlainFormula(s.pricing) ==>
                  r.pricing.inherited.value == Inherited(s.pricing.surcharges.None?, s.pricing.maxUnits.None?, s.pricing.scope.None?))
  {
  }

  // Its own rules, or those of the business's hours; a rule without a last departure takes six in the
  // evening, or the last one back by its closing time.
  lemma ResolvedRulesRead(c: Config, slug: string, i: nat)
    requires Parsed(c) && slug in c.services
    ensures var s, r := c.services[slug], Resolve(c).services[slug];
            var rules := if s.source != Some(SharedHours) && s.schedule.Some? then s.schedule.value
                         else if c.hours.Some? then c.hours.value else [];
            && r.source == Some(if s.source != Some(SharedHours) && s.schedule.Some? then OwnSchedule else SharedHours)
            && r.schedule.Some? && |r.schedule.value| == |rules|
            && (i < |rules| ==>
                  && r.schedule.value[i].(lastStart := None) == rules[i].(lastStart := None)
                  && (rules[i].lastStart.Some? ==> r.schedule.value[i].lastStart == rules[i].lastStart)
                  && (rules[i].lastStart.None? && rules[i].lastEnd.None? ==> r.schedule.value[i].lastStart == Some(1080))
                  && (rules[i].lastStart.None? && rules[i].lastEnd.Some? && rules[i].lastEnd.value - s.durationMin < rules[i].firstStart
                      ==> r.schedule.value[i].lastStart == Some(rules[i].firstStart))
                  && r.schedule.value[i].lastStart.Some?)
  {
  }

  // Resolving what is already resolved changes nothing.
  lemma ResolvingIsIdempotent(c: Config)
    requires Parsed(c)
    ensures Parsed(Resolve(c)) && Resolve(Resolve(c)) == Resolve(c)
  {
    ResolvedIsParsed(c);
    var r := Resolve(c);
    forall slug | slug in r.services ensures ResolveService(r.services[slug], c.hours, c.shared) == r.services[slug] {
      assert ServiceParsed(r.services[slug]) && ServiceParsed(c.services[slug]);
      ServiceResolvesOnce(c.services[slug], c.hours, c.shared);
    }
    assert Resolve(r).services == r.services;
  }

  // ----- settings

  datatype RuleEdit =
    | FirstStart(at: int)
    | LastStart(at: int)
    | LastEnd(at: int)
    | Interval(minutes: int)
    | Days(days: set<int>)
  {
    // What decoding a stored value guarantees.
    predicate Decoded() {
      match this
      case FirstStart(at) => TimeOfDay(at)
      case LastStart(at) => TimeOfDay(at)
      case LastEnd(at) => TimeOfDay(at)
      case Interval(minutes) => 1 <= minutes <= 1440
      case Days(days) => days != {} && forall d | d in days :: 0 <= d <= 6
    }

    // A rule offers its closing time when it has one, and its last departure otherwise.
    predicate Offered(rule: Rule) {
      match this
      case LastStart(_) => rule.lastEnd.None?
      case LastEnd(_) => rule.lastEnd.Some?
      case _ => true
    }
  }

  datatype Edit =
    | HoursField(index: nat, change: RuleEdit)
    | ScheduleField(slug: string, index: nat, change: RuleEdit)
    | SharedSurcharge(pickupId: string, amount: int)
    | SharedMaxUnits(units: int)
    | SharedScope(scope: Scope)
    | BasePrice(slug: string, amount: int)
    | OwnSurcharge(slug: string, pickupId: string, amount: int)
    | OwnMaxUnits(slug: string, units: int)
    | OwnScope(slug: string, scope: Scope)

  // The settings a resolved configuration defines.
  predicate Defined(r: Config, e: Edit) {
    match e
    case HoursField(i, change) => r.hours.Some? && i < |r.hours.value| && change.Decoded() && change.Offered(r.hours.value[i])
    case ScheduleField(slug, i, change) =>
      && slug in r.services && r.services[slug].Owns() && i < |r.services[slug].schedule.value|
      && change.Decoded() && change.Offered(r.services[slug].schedule.value[i])
    case SharedSurcharge(id, amount) => id in r.shared.surcharges && 0 <= amount && exists slug | slug in r.services :: Flags(r, slug).surcharges
    case SharedMaxUnits(units) => 1 <= units && exists slug | slug in r.services :: Flags(r, slug).maxUnits
    case SharedScope(_) => exists slug | slug in r.services :: Flags(r, slug).scope
    case BasePrice(slug, amount) => slug in r.services && 0 <= amount
    case OwnSurcharge(slug, id, amount) => slug in r.services && !Flags(r, slug).surcharges && id in r.services[slug].pickupIds && 0 <= amount
    case OwnMaxUnits(slug, units) => slug in r.services && !Flags(r, slug).maxUnits && 1 <= units
    case OwnScope(slug, _) => slug in r.services && !Flags(r, slug).scope
  }

  function Flags(r: Config, slug: string): Inherited
    requires slug in r.services
  {
    r.services[slug].pricing.inherited.GetOr(Inherited(false, false, false))
  }

  function EditRule(rule: Rule, change: RuleEdit): Rule {
    match change
    case FirstStart(at) => rule.(firstStart := at)
    case LastStart(at) => rule.(lastStart := Some(at))
    case LastEnd(at) => rule.(lastEnd := Some(at))
    case Interval(minutes) => rule.(intervalMin := minutes)
    case Days(days) => rule.(days := days)
  }

  function EditRules(rules: seq<Rule>, index: nat, change: RuleEdit): (edited: seq<Rule>)
    ensures |edited| == |rules|
  {
    if index < |rules| then rules[index := EditRule(rules[index], change)] else rules
  }

  function EditHours(hours: Option<seq<Rule>>, e: Edit): Option<seq<Rule>> {
    if hours.Some? && e.HoursField? then Some(EditRules(hours.value, e.index, e.change)) else hours
  }

  function EditShared(shared: SharedPricing, e: Edit): SharedPricing {
    match e
    case SharedSurcharge(id, amount) => shared.(surcharges := shared.surcharges[id := amount])
    case SharedMaxUnits(units) => shared.(maxUnits := units)
    case SharedScope(scope) => shared.(scope := scope)
    case _ => shared
  }

  function EditPricing(f: Formula, slug: string, e: Edit): Formula {
    match e
    case BasePrice(at, amount) => if at == slug then f.(baseMinor := amount) else f
    case OwnSurcharge(at, id, amount) =>
      if at == slug && f.surcharges.Some? then f.(surcharges := Some(f.surcharges.value[id := amount])) else f
    case OwnMaxUnits(at, units) => if at == slug then f.(maxUnits := Some(units)) else f
    case OwnScope(at, scope) => if at == slug then f.(scope := Some(scope)) else f
    case _ => f
  }

  function EditSchedule(schedule: Option<seq<Rule>>, slug: string, e: Edit): Option<seq<Rule>> {
    if schedule.Some? && e.ScheduleField? && e.slug == slug then Some(EditRules(schedule.value, e.index, e.change)) else schedule
  }

  function EditService(s: Service, slug: string, e: Edit): Service {
    s.(schedule := EditSchedule(s.schedule, slug, e), pricing := EditPricing(s.pricing, slug, e))
  }

  function EditConfig(c: Config, e: Edit): Config {
    Config(EditHours(c.hours, e), EditShared(c.shared, e),
           map slug | slug in c.services :: EditService(c.services[slug], slug, e))
  }

  // The same settings written into a configuration file, one after another.
  function EditAll(c: Config, edits: seq<Edit>): Config {
    if edits == [] then c else EditConfig(EditAll(c, edits[..|edits| - 1]), edits[|edits| - 1])
  }

  // ----- laying stored settings over a resolved configuration

  // A rule with a closing time gives up its last departure, to be derived anew.
  function ClonedScheduleRule(rule: Rule): Rule {
    if rule.lastEnd.None? then rule else rule.(lastStart := None)
  }

  function ClonedService(s: Service): Service {
    if s.schedule.None? then s
    else s.(schedule := Some(seq(|s.schedule.value|, i requires 0 <= i < |s.schedule.value| => ClonedScheduleRule(s.schedule.value[i]))))
  }

  function Cloned(c: Config): Config {
    c.(services := map slug | slug in c.services :: ClonedService(c.services[slug]))
  }

  // An inherited field follows the shared block.
  function Followed(s: Service, shared: SharedPricing): Service {
    var f := s.pricing;
    var inherited := f.inherited.GetOr(Inherited(false, false, false));
    s.(pricing := f.(surcharges := if inherited.surcharges then Some(SurchargesView(shared.surcharges, s.pickupIds)) else f.surcharges,
                     maxUnits := if inherited.maxUnits then Some(shared.maxUnits) else f.maxUnits,
                     scope := if inherited.scope then Some(shared.scope) else f.scope))
  }

  function FollowShared(c: Config): Config {
    c.(services := map slug | slug in c.services :: Followed(c.services[slug], c.shared))
  }

  // A stored row: the edit it decodes to, if it does.
  type Row = Option<Edit>

  function Decodable(rows: seq<Row>): seq<Edit> {
    if rows == [] then []
    else Decodable(rows[..|rows| - 1]) + (if rows[|rows| - 1].Some? then [rows[|rows| - 1].value] else [])
  }

  function Overlaid(c: Config, rows: seq<Row>): Config {
    if rows == [] then c else FollowShared(EditAll(Cloned(c), Decodable(rows)))
  }

  lemma DecodesOneMore(rows: seq<Row>, i: nat)
    requires i < |rows|
    ensures Decodable(rows[..i + 1]) == Decodable(rows[..i]) + (if rows[i].Some? then [rows[i].value] else [])
  {
    assert rows[..i + 1][..i] == rows[..i];
  }

  lemma EditsOneMore(c: Config, edits: seq<Edit>, e: Edit)
    ensures EditAll(c, edits + [e]) == EditConfig(EditAll(c, edits), e)
  {
    assert (edits + [e])[..|edits|] == edits;
  }

  // ----- what a setting reads

  datatype RuleField = FirstStartField | LastStartField | LastEndField | IntervalField | DaysField

  datatype Setting =
    | OfHours(index: nat, field: RuleField)
    | OfSchedule(slug: string, index: nat, field: RuleField)
    | OfSharedSurcharge(pickupId: string)
    | OfSharedMaxUnits
    | OfSharedScope
    | OfBasePrice(slug: string)
    | OfSurcharge(slug: string, pickupId: string)
    | OfMaxUnits(slug: string)
    | OfScope(slug: string)

  datatype Value = Absent | Number(n: int) | Weekdays(days: set<int>) | Charged(scope: Scope)

  function NumberOf(n: Option<int>): Value {
    if n.Some? then Number(n.value) else Absent
  }

  function ReadRule(rule: Rule, field: RuleField): Value {
    match field
    case FirstStartField => Number(rule.firstStart)
    case LastStartField => NumberOf(rule.lastStart)
    case LastEndField => NumberOf(rule.lastEnd)
    case IntervalField => Number(rule.intervalMin)
    case DaysField => Weekdays(rule.days)
  }

  // The field of the configuration that the setting stands for.
  function Read(c: Config, s: Setting): Value {
    match s
    case OfHours(i, field) => if c.hours.Some? && i < |c.hours.value| then ReadRule(c.hours.value[i], field) else Absent
    case OfSchedule(slug, i, field) =>
      if slug in c.services && c.services[slug].schedule.Some? && i < |c.services[slug].schedule.value|
      then ReadRule(c.services[slug].schedule.value[i], field) else Absent
    case OfSharedSurcharge(id) => if id in c.shared.surcharges then Number(c.shared.surcharges[id]) else Absent
    case OfSharedMaxUnits => Number(c.shared.maxUnits)
    case OfSharedScope => Charged(c.shared.scope)
    case OfBasePrice(slug) => if slug in c.services then Number(c.services[slug].pricing.baseMinor) else Absent
    case OfSurcharge(slug, id) =>
      if slug in c.services && c.services[slug].pricing.surcharges.Some? && id in c.services[slug].pricing.surcharges.value
      then Number(c.services[slug].pricing.surcharges.value[id]) else Absent
    case OfMaxUnits(slug) => if slug in c.services then NumberOf(c.services[slug].pricing.maxUnits) else Absent
    case OfScope(slug) =>
      if slug in c.services && c.services[slug].pricing.scope.Some? then Charged(c.services[slug].pricing.scope.value) else Absent
  }

  // There is a place to write the setting to.
  predicate Present(c: Config, s: Setting) {
    match s
    case OfHours(i, _) => c.hours.Some? && i < |c.hours.value|
    case OfSchedule(slug, i, _) => slug in c.services && c.services[slug].schedule.Some? && i < |c.services[slug].schedule.value|
    case OfSharedSurcharge(_) => true
    case OfSharedMaxUnits => true
    case OfSharedScope => true
    case OfBasePrice(slug) => slug in c.services
    case OfSurcharge(slug, _) => slug in c.services && c.services[slug].pricing.surcharges.Some?
    case OfMaxUnits(slug) => slug in c.services
    case OfScope(slug) => slug in c.services
  }

  function RuleFieldOf(change: RuleEdit): RuleField {
    match change
    case FirstStart(_) => FirstStartField
    case LastStart(_) => LastStartField
    case LastEnd(_) => LastEndField
    case Interval(_) => IntervalField
    case Days(_) => DaysField
  }

  function RuleValueOf(change: RuleEdit): Value {
    match change
    case FirstStart(at) => Number(at)
    case LastStart(at) => Number(at)
    case LastEnd(at) => Number(at)
    case Interval(minutes) => Number(minutes)
    case Days(days) => Weekdays(days)
  }

  // The setting a row names.
  function SettingOf(e: Edit): Setting {
    match e
    case HoursField(i, change) => OfHours(i, RuleFieldOf(change))
    case ScheduleField(slug, i, change) => OfSchedule(slug, i, RuleFieldOf(change))
    case SharedSurcharge(id, _) => OfSharedSurcharge(id)
    case SharedMaxUnits(_) => OfSharedMaxUnits
    case SharedScope(_) => OfSharedScope
    case BasePrice(slug, _) => OfBasePrice(slug)
    case OwnSurcharge(slug, id, _) => OfSurcharge(slug, id)
    case OwnMaxUnits(slug, _) => OfMaxUnits(slug)
    case OwnScope(slug, _) => OfScope(slug)
  }

  // The value it gives the setting.
  function ValueOf(e: Edit): Value {
    match e
    case HoursField(_, change) => RuleValueOf(change)
    case ScheduleField(_, _, change) => RuleValueOf(change)
    case SharedSurcharge(_, amount) => Number(amount)
    case SharedMaxUnits(units) => Number(units)
    case SharedScope(scope) => Charged(scope)
    case BasePrice(_, amount) => Number(amount)
    case OwnSurcharge(_, _, amount) => Number(amount)
    case OwnMaxUnits(_, units) => Number(units)
    case OwnScope(_, scope) => Charged(scope)
  }

  // An edit takes effect where it is read, and nowhere else.
  lemma SetThenGet(c: Config, e: Edit, s: Setting)
    ensures Present(EditConfig(c, e), s) <==> Present(c, s)
    ensures Read(EditConfig(c, e), s) == if SettingOf(e) == s && Present(c, s) then ValueOf(e) else Read(c, s)
  {
    if s.OfHours? { SetThenGetRule(c, e, s); }
    else if s.OfSchedule? { SetThenGetRule(c, e, s); }
  }

  lemma SetThenGetRule(c: Config, e: Edit, s: Setting)
    requires s.OfHours? || s.OfSchedule?
    ensures Present(EditConfig(c, e), s) <==> Present(c, s)
    ensures Read(EditConfig(c, e), s) == if SettingOf(e) == s && Present(c, s) then ValueOf(e) else Read(c, s)
  {
  }

  // Everything of the configuration that no setting stands for.
  predicate SameFrame(a: Config, b: Config) {
    && SameSeasons(a.hours, b.hours)
    && a.services.Keys == b.services.Keys
    && forall slug | slug in a.services && slug in b.services :: SameServiceFrame(a.services[slug], b.services[slug])
  }

  predicate SameSeasons(a: Option<seq<Rule>>, b: Option<seq<Rule>>) {
    && a.Some? == b.Some?
    && (a.Some? ==>
          && |a.value| == |b.value|
          && forall i | 0 <= i < |a.value| :: a.value[i].from == b.value[i].from && a.value[i].to == b.value[i].to)
  }

  predicate SameServiceFrame(a: Service, b: Service) {
    && a.durationMin == b.durationMin && a.pickupIds == b.pickupIds && a.seats == b.seats && a.source == b.source
    && a.pricing.seatsPerUnit == b.pricing.seatsPerUnit && a.pricing.inherited == b.pricing.inherited
    && SameSeasons(a.schedule, b.schedule)
  }

  lemma EditKeepsTheFrame(c: Config, e: Edit)
    ensures SameFrame(c, EditConfig(c, e))
  {
    forall slug | slug in c.services ensures SameServiceFrame(c.services[slug], EditConfig(c, e).services[slug]) {
      EditKeepsServiceFrame(c.services[slug], slug, e);
    }
  }

  lemma EditKeepsServiceFrame(s: Service, slug: string, e: Edit)
    ensures SameServiceFrame(s, EditService(s, slug, e))
  {
  }

  lemma FramesChain(a: Config, b: Config, c: Config)
    requires SameFrame(a, b) && SameFrame(b, c)
    ensures SameFrame(a, c)
  {
    forall slug | slug in a.services && slug in c.services ensures SameServiceFrame(a.services[slug], c.services[slug]) {
      assert slug in b.services;
      assert SameServiceFrame(a.services[slug], b.services[slug]) && SameServiceFrame(b.services[slug], c.services[slug]);
    }
  }

  // The i-th row is the last one to name the setting.
  predicate NamedLast(rows: seq<Row>, s: Setting, i: nat) {
    && i < |rows| && rows[i].Some? && SettingOf(rows[i].value) == s
    && forall j | i < j < |rows| && rows[j].Some? :: SettingOf(rows[j].value) != s
  }

  predicate NeverNamed(rows: seq<Row>, s: Setting) {
    forall j | 0 <= j < |rows| && rows[j].Some? :: SettingOf(rows[j].value) != s
  }

  function AfterRow(c: Config, row: Row): Config {
    if row.Some? then EditConfig(c, row.value) else c
  }

  lemma OneMoreRow(c: Config, rows: seq<Row>)
    requires rows != []
    ensures EditAll(c, Decodable(rows)) == AfterRow(EditAll(c, Decodable(rows[..|rows| - 1])), rows[|rows| - 1])
  {
    var edits, last := Decodable(rows[..|rows| - 1]), rows[|rows| - 1];
    if last.Some? { EditsOneMore(c, edits, last.value); } else { assert edits + [] == edits; }
  }

  lemma {:induction false} RowsKeepTheFrame(c: Config, rows: seq<Row>)
    ensures SameFrame(c, EditAll(c, Decodable(rows)))
  {
    if rows != [] {
      var before := EditAll(c, Decodable(rows[..|rows| - 1]));
      OneMoreRow(c, rows);
      RowsKeepTheFrame(c, rows[..|rows| - 1]);
      if rows[|rows| - 1].Some? {
        EditKeepsTheFrame(before, rows[|rows| - 1].value);
        FramesChain(c, before, EditConfig(before, rows[|rows| - 1].value));
      }
    }
  }

  // What a setting reads once the rows are made: its last row's value, or what it was.
  ghost predicate ReadsLast(c: Config, rows: seq<Row>, s: Setting, value: Value) {
    && (NeverNamed(rows, s) || !Present(c, s) ==> value == Read(c, s))
    && (forall i: nat | NamedLast(rows, s, i) && Present(c, s) :: value == ValueOf(rows[i].value))
  }

  lemma LaterRowWins(c: Config, rows: seq<Row>, s: Setting, before: Value, value: Value)
    requires rows != [] && ReadsLast(c, rows[..|rows| - 1], s, before)
    requires var last := rows[|rows| - 1];
             value == if last.Some? && SettingOf(last.value) == s && Present(c, s) then ValueOf(last.value) else before
    ensures ReadsLast(c, rows, s, value)
  {
    var n := |rows| - 1;
    assert NeverNamed(rows, s) ==> NeverNamed(rows[..n], s);
    forall i: nat | NamedLast(rows, s, i) && Present(c, s) ensures value == ValueOf(rows[i].value) {
      if i < n { assert NamedLast(rows[..n], s, i); }
    }
  }

  lemma {:induction false} ReadAfterRows(c: Config, rows: seq<Row>, s: Setting)
    ensures Present(EditAll(c, Decodable(rows)), s) <==> Present(c, s)
    ensures ReadsLast(c, rows, s, Read(EditAll(c, Decodable(rows)), s))
  {
    if rows != [] {
      var before, last := EditAll(c, Decodable(rows[..|rows| - 1])), rows[|rows| - 1];
      ReadAfterRows(c, rows[..|rows| - 1], s);
      OneMoreRow(c, rows);
      if last.Some? { SetThenGet(before, last.value, s); }
      LaterRowWins(c, rows, s, Read(before, s), Read(AfterRow(before, last), s));
    }
  }

  // The shared block's field that an inherited one follows.
  function FollowedValue(next: Config, s: Setting): Value {
    match s
    case OfSurcharge(slug, id) =>
      if slug in next.services && id in next.services[slug].pickupIds && id in next.shared.surcharges
      then Number(next.shared.surcharges[id]) else Absent
    case OfMaxUnits(_) => Number(next.shared.maxUnits)
    case OfScope(_) => Charged(next.shared.scope)
    case _ => Absent
  }

  // The service takes the field from the shared block.
  predicate Follows(c: Config, s: Setting) {
    match s
    case OfSurcharge(slug, _) => slug in c.services && Flags(c, slug).surcharges
    case OfMaxUnits(slug) => slug in c.services && Flags(c, slug).maxUnits
    case OfScope(slug) => slug in c.services && Flags(c, slug).scope
    case _ => false
  }

  // A last departure that a service's closing time gives, to be derived anew.
  predicate Derived(c: Config, s: Setting) {
    s.OfSchedule? && s.field == LastStartField && Read(c, OfSchedule(s.slug, s.index, LastEndField)) != Absent
  }

  // What the overlaid configuration reads at a setting, from the rows and the configuration under them.
  ghost predicate ReadsAsSet(c: Config, rows: seq<Row>, next: Config, s: Setting) {
    if Follows(c, s) then Read(next, s) == FollowedValue(next, s)
    else
      && (forall i: nat | NamedLast(rows, s, i) && Present(c, s) :: Read(next, s) == ValueOf(rows[i].value))
      && (NeverNamed(rows, s) || !Present(c, s) ==> Read(next, s) == if Derived(c, s) then Absent else Read(c, s))
  }

  lemma CloningKeepsTheFrame(c: Config)
    ensures SameFrame(c, Cloned(c))
  {
    forall slug | slug in c.services ensures SameServiceFrame(c.services[slug], Cloned(c).services[slug]) {
    }
  }

  lemma CloneReads(c: Config, s: Setting)
    ensures Present(Cloned(c), s) <==> Present(c, s)
    ensures Read(Cloned(c), s) == if Derived(c, s) then Absent else Read(c, s)
  {
    if s.OfSchedule? { CloneReadsRule(c, s); }
  }

  lemma CloneReadsRule(c: Config, s: Setting)
    requires s.OfSchedule?
    ensures Present(Cloned(c), s) <==> Present(c, s)
    ensures Read(Cloned(c), s) == if Derived(c, s) then Absent else Read(c, s)
  {
  }

  lemma FollowingReads(c: Config, s: Setting)
    ensures SameFrame(c, FollowShared(c))
    ensures Read(FollowShared(c), s) == if Follows(c, s) then FollowedValue(FollowShared(c), s) else Read(c, s)
  {
    forall slug | slug in c.services ensures SameServiceFrame(c.services[slug], FollowShared(c).services[slug]) {
    }
  }

  // The last row of a setting wins; a field nobody names stays, unless it is inherited or derived.
  lemma OverlayReadsAsSet(c: Config, rows: seq<Row>, s: Setting)
    requires rows != []
    ensures SameFrame(c, Overlaid(c, rows)) && ReadsAsSet(c, rows, Overlaid(c, rows), s)
  {
    var edited := EditAll(Cloned(c), Decodable(rows));
    CloningKeepsTheFrame(c);
    CloneReads(c, s);
    RowsKeepTheFrame(Cloned(c), rows);
    ReadAfterRows(Cloned(c), rows, s);
    FollowingReads(edited, s);
    FramesChain(c, Cloned(c), edited);
    FramesChain(c, edited, Overlaid(c, rows));
    SameFrameFollowsAlike(c, edited, s);
  }

  lemma SameFrameFollowsAlike(a: Config, b: Config, s: Setting)
    requires SameFrame(a, b)
    ensures Follows(a, s) <==> Follows(b, s)
  {
    if s.OfSurcharge? || s.OfMaxUnits? || s.OfScope? {
      if s.slug in a.services { assert SameServiceFrame(a.services[s.slug], b.services[s.slug]); }
    }
  }

  predicate RuleTakes(rule: Rule, change: RuleEdit) {
    && (change.FirstStart? ==> rule.firstStart == change.at)
    && (change.LastStart? ==> rule.lastStart == Some(change.at))
    && (change.LastEnd? ==> rule.lastEnd == Some(change.at))
    && (change.Interval? ==> rule.intervalMin == change.minutes)
    && (change.Days? ==> rule.days == change.days)
  }

  // The stored value of every setting that is offered is the value the overlaid configuration works with: of a rule,
  // of the shared pricing, and of a service's own pricing.
  lemma OfferedRuleTakesEffect(r: Config, rows: seq<Row>, i: nat)
    requires i < |rows| && rows[i].Some? && Defined(r, rows[i].value) && NamedLast(rows, SettingOf(rows[i].value), i)
    ensures var e, next := rows[i].value, Overlaid(r, rows);
            && (e.HoursField? ==> next.hours.Some? && e.index < |next.hours.value| && RuleTakes(next.hours.value[e.index], e.change))
            && (e.ScheduleField? ==>
                  e.slug in next.services && next.services[e.slug].schedule.Some? && e.index < |next.services[e.slug].schedule.value|
                  && RuleTakes(next.services[e.slug].schedule.value[e.index], e.change))
  {
    var e := rows[i].value;
    if e.HoursField? || e.ScheduleField? { OfferedValueIsRead(r, rows, i); }
  }

  lemma OfferedPriceTakesEffect(r: Config, rows: seq<Row>, i: nat)
    requires i < |rows| && rows[i].Some? && Defined(r, rows[i].value) && NamedLast(rows, SettingOf(rows[i].value), i)
    requires forall slug | slug in r.services :: r.services[slug].pricing.surcharges.Some?
    ensures var e, next := rows[i].value, Overlaid(r, rows);
            && (e.SharedSurcharge? ==> e.pickupId in next.shared.surcharges && next.shared.surcharges[e.pickupId] == e.amount)
            && (e.SharedMaxUnits? ==> next.shared.maxUnits == e.units)
            && (e.SharedScope? ==> next.shared.scope == e.scope)
            && (e.BasePrice? ==> e.slug in next.services && next.services[e.slug].pricing.baseMinor == e.amount)
            && (e.OwnSurcharge? ==>
                  e.slug in next.services && next.services[e.slug].pricing.surcharges.Some?
                  && e.pickupId in next.services[e.slug].pricing.surcharges.value
                  && next.services[e.slug].pricing.surcharges.value[e.pickupId] == e.amount)
            && (e.OwnMaxUnits? ==> e.slug in next.services && next.services[e.slug].pricing.maxUnits == Some(e.units))
            && (e.OwnScope? ==> e.slug in next.services && next.services[e.slug].pricing.scope == Some(e.scope))
  {
    var e := rows[i].value;
    if !e.HoursField? && !e.ScheduleField? { OfferedValueIsRead(r, rows, i); }
  }

  lemma OfferedValueIsRead(r: Config, rows: seq<Row>, i: nat)
    requires i < |rows| && rows[i].Some? && Defined(r, rows[i].value) && NamedLast(rows, SettingOf(rows[i].value), i)
    requires rows[i].value.OwnSurcharge? ==>
               rows[i].value.slug in r.services && r.services[rows[i].value.slug].pricing.surcharges.Some?
    ensures Read(Overlaid(r, rows), SettingOf(rows[i].value)) == ValueOf(rows[i].value)
  {
    OverlayReadsAsSet(r, rows, SettingOf(rows[i].value));
  }

  method ApplySettingOverrides(c: Config, rows: seq<Row>) returns (next: Config, invalid: set<nat>)
    ensures next == Overlaid(c, rows)
    ensures if rows == [] then next == c else SameFrame(c, next) && forall s :: ReadsAsSet(c, rows, next, s)
    ensures forall i: nat :: i in invalid <==> i < |rows| && rows[i].None?
  {
    if |rows| == 0 { return c, {}; }
    next, invalid := SetEach(Cloned(c), rows);
    next := FollowSharedBlock(next);
    OverlayReadsAsSet(c, rows, OfSharedScope);
    forall s { OverlayReadsAsSet(c, rows, s); }
  }

  // Each row's setter in turn; a row that does not decode is reported and skipped.
  method SetEach(start: Config, rows: seq<Row>) returns (next: Config, invalid: set<nat>)
    ensures next == EditAll(start, Decodable(rows))
    ensures forall i: nat :: i in invalid <==> i < |rows| && rows[i].None?
  {
    next, invalid := start, {};
    for i := 0 to |rows|
      invariant next == EditAll(start, Decodable(rows[..i]))
      invariant forall k: nat :: k in invalid <==> k < i && rows[k].None?
    {
      ghost var before := Decodable(rows[..i]);
      DecodesOneMore(rows, i);
      if rows[i].Some? {
        EditsOneMore(start, before, rows[i].value);
        next := EditConfig(next, rows[i].value);
      } else {
        assert before + [] == before;
        invalid := invalid + {i};
      }
    }
    assert rows[..|rows|] == rows;
  }

  // Each service that inherits takes the shared block's current values.
  method FollowSharedBlock(edited: Config) returns (next: Config)
    ensures next == FollowShared(edited)
  {
    next := edited;
    var rest := edited.services.Keys;
    while exists slug :: slug in rest
      invariant rest <= edited.services.Keys == next.services.Keys
      invariant next.hours == edited.hours && next.shared == edited.shared
      invariant forall slug | slug in next.services ::
                  next.services[slug] == if slug in rest then edited.services[slug] else Followed(edited.services[slug], edited.shared)
      decreases rest
    {
      var slug :| slug in rest;
      next := next.(services := next.services[slug := Followed(next.services[slug], next.shared)]);
      rest := rest - {slug};
    }
  }

  // ----- the two ways agree

  // Nothing claims to be inherited while declaring a value of its own: `inherited` is written only
  // by resolution.
  predicate PlainFormula(f: Formula) {
    var claims := f.inherited.GetOr(Inherited(false, false, false));
    && (claims.surcharges ==> f.surcharges.None?)
    && (claims.maxUnits ==> f.maxUnits.None?)
    && (claims.scope ==> f.scope.None?)
  }

  predicate AsDeclared(c: Config) {
    Parsed(c) && forall slug | slug in c.services :: PlainFormula(c.services[slug].pricing)
  }

  predicate AllDefined(r: Config, edits: seq<Edit>) {
    forall i | 0 <= i < |edits| :: Defined(r, edits[i])
  }

  // The rule declares both a last departure and a closing time.
  predicate DeclaresBoth(rule: Rule) {
    rule.lastStart.Some? && rule.lastEnd.Some?
  }

  // What the overlay's clone of a resolved rule looks like, from the declared rule.
  function Stripped(rule: Rule): Rule {
    rule.(lastStart := if rule.lastEnd.Some? then None else Some(rule.lastStart.GetOr(DEFAULT_LAST_START)))
  }

  lemma CloneOfResolvedRule(rule: Rule, duration: int)
    requires rule.Parsed()
    ensures ClonedScheduleRule(ResolveScheduleRule(rule, duration)) == Stripped(rule)
  {
  }

  lemma EditCommutesWithStripping(rule: Rule, change: RuleEdit)
    requires change.Offered(rule) && change.Decoded() && rule.Parsed()
    ensures EditRule(Stripped(rule), change) == Stripped(EditRule(rule, change))
    ensures EditRule(rule, change).Parsed()
    ensures DeclaresBoth(EditRule(rule, change)) <==> DeclaresBoth(rule)
    ensures DeclaresBoth(rule) ==> EditRule(rule, change).lastStart == rule.lastStart
    ensures EditRule(rule, change).lastEnd.Some? <==> rule.lastEnd.Some?
  {
  }

  // A rule resolves the same from either form, unless its declared last departure has gone stale.
  lemma StrippedResolvesAlike(rule: Rule, duration: int)
    requires rule.Parsed()
    ensures Stripped(rule).Parsed()
    ensures ResolveScheduleRule(Stripped(rule), duration) == ResolveScheduleRule(rule, duration)
        <==> (DeclaresBoth(rule) ==> DerivedLastStart(rule, duration) == rule.lastStart.value)
  {
  }

  // An edit that touches this service is one its settings offer.
  predicate Permits(declared: Service, inherited: Inherited, slug: string, e: Edit) {
    match e
    case ScheduleField(at, i, change) =>
      at == slug ==> declared.Owns() && i < |declared.schedule.value| && change.Decoded() && change.Offered(declared.schedule.value[i])
    case OwnSurcharge(at, id, _) => at == slug ==> !inherited.surcharges && id in declared.pickupIds
    case OwnMaxUnits(at, _) => at == slug ==> !inherited.maxUnits
    case OwnScope(at, _) => at == slug ==> !inherited.scope
    case _ => true
  }

  predicate PricingMirrors(clone: Formula, declared: Formula, pickupIds: set<string>, inherited: Inherited) {
    && clone.baseMinor == declared.baseMinor && clone.inherited == Some(inherited) && PlainFormula(declared)
    && (if inherited.surcharges then declared.surcharges.None?
        else declared.surcharges.Some? && clone.surcharges.Some?
             && SurchargesView(clone.surcharges.value, pickupIds) == SurchargesView(declared.surcharges.value, pickupIds))
    && (if inherited.maxUnits then declared.maxUnits.None? else declared.maxUnits.Some? && clone.maxUnits == declared.maxUnits)
    && (if inherited.scope then declared.scope.None? else declared.scope.Some? && clone.scope == declared.scope)
  }

  // What the overlay's clone of a service keeps in common with the declared service.
  predicate Mirrors(clone: Service, declared: Service, inherited: Inherited) {
    && clone.durationMin == declared.durationMin && clone.pickupIds == declared.pickupIds && clone.seats == declared.seats
    && clone.source == Some(if declared.Owns() then OwnSchedule else SharedHours)
    && ServiceParsed(declared) && ServiceParsed(clone)
    && (declared.Owns() ==> clone.schedule.Some? && RulesMirror(clone.schedule.value, declared.schedule.value))
    && PricingMirrors(clone.pricing, declared.pricing, declared.pickupIds, inherited)
  }

  predicate RulesMirror(clone: seq<Rule>, declared: seq<Rule>) {
    |clone| == |declared| && forall i | 0 <= i < |clone| :: clone[i] == Stripped(declared[i])
  }

  predicate SameClosing(before: Rule, after: Rule) {
    before.lastEnd.Some? == after.lastEnd.Some? && DeclaresBoth(before) == DeclaresBoth(after)
  }

  // What an edit leaves alone in the declared service.
  predicate SameShape(before: Service, after: Service) {
    && before.Owns() == after.Owns()
    && (before.Owns() ==>
          && |before.schedule.value| == |after.schedule.value|
          && (forall i | 0 <= i < |before.schedule.value| :: SameClosing(before.schedule.value[i], after.schedule.value[i])))
    && before.pickupIds == after.pickupIds
  }

  lemma ClonesMirror(s: Service, hours: Option<seq<Rule>>, shared: SharedPricing)
    requires ServiceParsed(s) && AllParsed(hours) && PlainFormula(s.pricing)
    ensures Mirrors(ClonedService(ResolveService(s, hours, shared)), s, ClaimsHold(s.pricing, s.pickupIds, shared))
  {
    var rules := if s.Owns() then s.schedule.value else hours.GetOr([]);
    var clone := ClonedService(ResolveService(s, hours, shared));
    forall i | 0 <= i < |rules| ensures clone.schedule.value[i].Parsed() && clone.schedule.value[i] == Stripped(rules[i]) {
      ResolvingParses(rules[i], s.durationMin);
      CloneOfResolvedRule(rules[i], s.durationMin);
    }
    if s.pricing.surcharges.Some? {
      var table := s.pricing.surcharges.value;
      assert SurchargesView(SurchargesView(table, s.pickupIds), s.pickupIds) == SurchargesView(table, s.pickupIds);
    }
  }

  lemma PricingStillMirrors(clone: Formula, declared: Formula, pickupIds: set<string>, inherited: Inherited, slug: string, e: Edit)
    requires PricingMirrors(clone, declared, pickupIds, inherited)
    requires match e
             case OwnSurcharge(at, id, _) => at == slug ==> !inherited.surcharges && id in pickupIds
             case OwnMaxUnits(at, _) => at == slug ==> !inherited.maxUnits
             case OwnScope(at, _) => at == slug ==> !inherited.scope
             case _ => true
    ensures PricingMirrors(EditPricing(clone, slug, e), EditPricing(declared, slug, e), pickupIds, inherited)
  {
    if e.OwnSurcharge? && e.slug == slug {
      var a, b := clone.surcharges.value, declared.surcharges.value;
      assert SurchargesView(a[e.pickupId := e.amount], pickupIds) == SurchargesView(a, pickupIds)[e.pickupId := e.amount];
      assert SurchargesView(b[e.pickupId := e.amount], pickupIds) == SurchargesView(b, pickupIds)[e.pickupId := e.amount];
    }
  }

  lemma EditingKeepsTheMirror(clone: Service, declared: Service, inherited: Inherited, slug: string, e: Edit)
    requires Mirrors(clone, declared, inherited) && Permits(declared, inherited, slug, e)
    ensures Mirrors(EditService(clone, slug, e), EditService(declared, slug, e), inherited)
    ensures SameShape(declared, EditService(declared, slug, e))
  {
    PricingStillMirrors(clone.pricing, declared.pricing, declared.pickupIds, inherited, slug, e);
    if e.ScheduleField? && e.slug == slug {
      EditCommutesWithStripping(declared.schedule.value[e.index], e.change);
      EditCommutesWithStripping(clone.schedule.value[e.index], e.change);
    }
  }

  lemma LastEditOnService(c: Config, edits: seq<Edit>, slug: string)
    requires edits != [] && slug in EditAll(c, edits[..|edits| - 1]).services
    ensures EditAll(c, edits).services.Keys == EditAll(c, edits[..|edits| - 1]).services.Keys
    ensures EditAll(c, edits).services[slug] == EditService(EditAll(c, edits[..|edits| - 1]).services[slug], slug, edits[|edits| - 1])
  {
  }

  lemma LastEditOnBlocks(c: Config, edits: seq<Edit>)
    requires edits != []
    ensures EditAll(c, edits).services.Keys == EditAll(c, edits[..|edits| - 1]).services.Keys
    ensures EditAll(c, edits).hours == EditHours(EditAll(c, edits[..|edits| - 1]).hours, edits[|edits| - 1])
    ensures EditAll(c, edits).shared == EditShared(EditAll(c, edits[..|edits| - 1]).shared, edits[|edits| - 1])
  {
  }

  lemma EditedHoursParse(hours: Option<seq<Rule>>, e: Edit)
    requires AllParsed(hours) && (e.HoursField? ==> e.change.Decoded())
    ensures AllParsed(EditHours(hours, e))
  {
  }

  lemma ShapesChain(a: Service, b: Service, c: Service)
    requires SameShape(a, b) && SameShape(b, c)
    ensures SameShape(a, c)
  {
  }

  lemma PermittedByShape(before: Service, after: Service, inherited: Inherited, slug: string, e: Edit)
    requires SameShape(before, after) && Permits(before, inherited, slug, e)
    ensures Permits(after, inherited, slug, e)
  {
  }

  // Both ways through the settings, for one service.
  lemma {:induction false} MirrorThroughEdits(a: Config, d: Config, slug: string, inherited: Inherited, edits: seq<Edit>)
    requires slug in a.services && slug in d.services && Mirrors(a.services[slug], d.services[slug], inherited)
    requires a.hours == d.hours && a.shared == d.shared
    requires forall i | 0 <= i < |edits| :: Permits(d.services[slug], inherited, slug, edits[i])
    ensures EditAll(a, edits).services.Keys == a.services.Keys && EditAll(d, edits).services.Keys == d.services.Keys
    ensures Mirrors(EditAll(a, edits).services[slug], EditAll(d, edits).services[slug], inherited)
    ensures SameShape(d.services[slug], EditAll(d, edits).services[slug])
  {
    if edits != [] {
      var before, e := edits[..|edits| - 1], edits[|edits| - 1];
      MirrorThroughEdits(a, d, slug, inherited, before);
      LastEditOnService(a, edits, slug);
      LastEditOnService(d, edits, slug);
      var s, s' := d.services[slug], EditAll(d, before).services[slug];
      PermittedByShape(s, s', inherited, slug, e);
      EditingKeepsTheMirror(EditAll(a, before).services[slug], s', inherited, slug, e);
      ShapesChain(s, s', EditService(s', slug, e));
    }
  }

  lemma {:induction false} SharedBlocksThroughEdits(a: Config, d: Config, edits: seq<Edit>)
    requires a.hours == d.hours && a.shared == d.shared && a.services.Keys == d.services.Keys
    requires AllParsed(a.hours) && AllDecoded(edits)
    ensures EditAll(a, edits).hours == EditAll(d, edits).hours && EditAll(a, edits).shared == EditAll(d, edits).shared
    ensures EditAll(a, edits).services.Keys == EditAll(d, edits).services.Keys == d.services.Keys
    ensures AllParsed(EditAll(a, edits).hours)
  {
    if edits != [] {
      var before := edits[..|edits| - 1];
      SharedBlocksThroughEdits(a, d, before);
      LastEditOnBlocks(a, edits);
      LastEditOnBlocks(d, edits);
      EditedHoursParse(EditAll(a, before).hours, edits[|edits| - 1]);
    }
  }

  predicate AllDecoded(edits: seq<Edit>) {
    forall i | 0 <= i < |edits| && edits[i].HoursField? :: edits[i].change.Decoded()
  }

  // No rule of the service declares a last departure that its closing time no longer gives.
  predicate NoStaleDeparture(s: Service)
    requires ServiceParsed(s)
  {
    s.Owns() ==> forall i | 0 <= i < |s.schedule.value| && DeclaresBoth(s.schedule.value[i]) ::
                   DerivedLastStart(s.schedule.value[i], s.durationMin) == s.schedule.value[i].lastStart.value
  }

  lemma RulesResolveAlike(clone: seq<Rule>, declared: seq<Rule>, duration: int)
    requires AllParsed(Some(clone)) && AllParsed(Some(declared)) && RulesMirror(clone, declared)
    ensures ResolveRules(clone, duration) == ResolveRules(declared, duration)
        <==> forall i | 0 <= i < |declared| && DeclaresBoth(declared[i]) ::
               DerivedLastStart(declared[i], duration) == declared[i].lastStart.value
  {
    forall i | 0 <= i < |declared|
      ensures ResolveRules(clone, duration)[i] == ResolveRules(declared, duration)[i]
          <==> (DeclaresBoth(declared[i]) ==> DerivedLastStart(declared[i], duration) == declared[i].lastStart.value)
    {
      StrippedResolvesAlike(declared[i], duration);
    }
  }

  lemma MirrorsResolveAlike(clone: Service, declared: Service, inherited: Inherited, hours: Option<seq<Rule>>, shared: SharedPricing)
    requires Mirrors(clone, declared, inherited) && AllParsed(hours)
    ensures ServiceParsed(Followed(clone, shared))
    ensures ResolveService(Followed(clone, shared), hours, shared) == ResolveService(declared, hours, shared)
        <==> NoStaleDeparture(declared)
  {
    var followed := Followed(clone, shared);
    assert SurchargesView(SurchargesView(shared.surcharges, clone.pickupIds), clone.pickupIds) == SurchargesView(shared.surcharges, clone.pickupIds);
    assert ResolvePricing(followed.pricing, clone.pickupIds, clone.seats, shared)
        == ResolvePricing(declared.pricing, clone.pickupIds, clone.seats, shared);
    if declared.Owns() {
      RulesResolveAlike(clone.schedule.value, declared.schedule.value, declared.durationMin);
    }
  }

  lemma DefinedEditsArePermitted(d: Config, slug: string, e: Edit)
    requires AsDeclared(d) && slug in d.services && Defined(Resolve(d), e)
    ensures Permits(d.services[slug], ClaimsHold(d.services[slug].pricing, d.services[slug].pickupIds, d.shared), slug, e)
  {
    if e.ScheduleField? && e.slug == slug {
      var s := d.services[slug];
      var r := ResolveService(s, d.hours, d.shared);
      assert Resolve(d).services[slug] == r;
      assert r.Owns() == s.Owns();
      assert r.schedule.value[e.index].lastEnd == s.schedule.value[e.index].lastEnd;
    }
  }

  predicate NothingStale(c: Config)
    requires Parsed(c)
  {
    forall slug | slug in c.services :: ServiceParsed(c.services[slug]) && NoStaleDeparture(c.services[slug])
  }

  // One service: what the overlay leads to, and what the edited file leads to.
  lemma ServiceAgrees(d: Config, edits: seq<Edit>, slug: string)
    requires AsDeclared(d) && slug in d.services && AllDefined(Resolve(d), edits)
    ensures var clone, file := EditAll(Cloned(Resolve(d)), edits), EditAll(d, edits);
            && clone.hours == file.hours && clone.shared == file.shared && AllParsed(file.hours)
            && clone.services.Keys == file.services.Keys == d.services.Keys
            && SameShape(d.services[slug], file.services[slug])
            && ServiceParsed(file.services[slug]) && ServiceParsed(Followed(clone.services[slug], file.shared))
            && (ResolveService(Followed(clone.services[slug], file.shared), file.hours, file.shared)
                == ResolveService(file.services[slug], file.hours, file.shared)
                <==> NoStaleDeparture(file.services[slug]))
  {
    var s, start := d.services[slug], Cloned(Resolve(d));
    var inherited := ClaimsHold(s.pricing, s.pickupIds, d.shared);
    assert ServiceParsed(s) && PlainFormula(s.pricing);
    assert start.services[slug] == ClonedService(ResolveService(s, d.hours, d.shared));
    ClonesMirror(s, d.hours, d.shared);
    forall i | 0 <= i < |edits| ensures Permits(s, inherited, slug, edits[i]) {
      DefinedEditsArePermitted(d, slug, edits[i]);
    }
    MirrorThroughEdits(start, d, slug, inherited, edits);
    SharedBlocksThroughEdits(start, d, edits);
    MirrorsResolveAlike(EditAll(start, edits).services[slug], EditAll(d, edits).services[slug], inherited,
                        EditAll(d, edits).hours, EditAll(d, edits).shared);
  }

  /** Stored settings laid over the resolved configuration and resolved again give what writing the
      same edits into the declared configuration gives, exactly when no rule is left declaring a
      last departure that its edited closing time contradicts. */
  lemma OverlayAgreesWithEditing(d: Config, rows: seq<Row>)
    requires AsDeclared(d) && rows != [] && AllDefined(Resolve(d), Decodable(rows))
    ensures Parsed(EditAll(d, Decodable(rows))) && Parsed(Overlaid(Resolve(d), rows))
    ensures Resolve(Overlaid(Resolve(d), rows)) == Resolve(EditAll(d, Decodable(rows))) <==> NothingStale(EditAll(d, Decodable(rows)))
  {
    var edits := Decodable(rows);
    var over, file := Overlaid(Resolve(d), rows), EditAll(d, edits);
    SharedBlocksThroughEdits(Cloned(Resolve(d)), d, edits);
    forall slug | slug in d.services
      ensures slug in over.services && slug in file.services
      ensures ServiceParsed(over.services[slug]) && ServiceParsed(file.services[slug])
      ensures ResolveService(over.services[slug], file.hours, file.shared) == ResolveService(file.services[slug], file.hours, file.shared)
          <==> NoStaleDeparture(file.services[slug])
    {
      ServiceAgrees(d, edits, slug);
    }
    SameMapsPointwise(over, file);
  }

  lemma SameMapsPointwise(a: Config, b: Config)
    requires Parsed(a) && Parsed(b) && a.hours == b.hours && a.shared == b.shared && a.services.Keys == b.services.Keys
    ensures Resolve(a) == Resolve(b) <==> forall slug | slug in a.services ::
              ServiceParsed(a.services[slug]) && ServiceParsed(b.services[slug])
              && ResolveService(a.services[slug], a.hours, a.shared) == ResolveService(b.services[slug], b.hours, b.shared)
  {
    forall slug | slug in a.services
      ensures ServiceParsed(a.services[slug]) && ServiceParsed(b.services[slug])
      ensures Resolve(a).services[slug] == ResolveService(a.services[slug], a.hours, a.shared)
      ensures Resolve(b).services[slug] == ResolveService(b.services[slug], b.hours, b.shared)
    {
    }
    if Resolve(a).services == Resolve(b).services {
      forall slug | slug in a.services
        ensures ResolveService(a.services[slug], a.hours, a.shared) == ResolveService(b.services[slug], b.hours, b.shared)
      {
        assert Resolve(a).services[slug] == Resolve(b).services[slug];
      }
    }
  }

  // So it agrees for every configuration whose own rules declare one of the two.
  predicate OneWayOfClosing(c: Config) {
    forall slug | slug in c.services && c.services[slug].Owns() ::
      forall i | 0 <= i < |c.services[slug].schedule.value| :: !DeclaresBoth(c.services[slug].schedule.value[i])
  }

  lemma OneWayOfClosingAlwaysAgrees(d: Config, rows: seq<Row>)
    requires AsDeclared(d) && OneWayOfClosing(d) && AllDefined(Resolve(d), Decodable(rows))
    ensures Parsed(EditAll(d, Decodable(rows))) && Parsed(Overlaid(Resolve(d), rows))
    ensures Resolve(Overlaid(Resolve(d), rows)) == Resolve(EditAll(d, Decodable(rows)))
  {
    if rows == [] {
      ResolvingIsIdempotent(d);
    } else {
      OverlayAgreesWithEditing(d, rows);
      var file := EditAll(d, Decodable(rows));
      SharedBlocksThroughEdits(Cloned(Resolve(d)), d, Decodable(rows));
      forall slug | slug in file.services ensures ServiceParsed(file.services[slug]) && NoStaleDeparture(file.services[slug]) {
        ServiceAgrees(d, Decodable(rows), slug);
      }
    }
  }

  // ----- a rule that declares both

  // From nine o'clock, hourly, back by six: the declared last departure is the derived one.
  const BOTH_WAYS := Rule(None, None, {1}, 540, Some(1020), Some(1080), 60)

  const BOTH_WAYS_CONFIG := Config(None, SharedPricing(map[], 1, PerUnit),
    map["tour" := Service(60, {}, Some(4), Some([BOTH_WAYS]), None, Formula(100, None, None, None, None, None))])

  const EVERY_NINETY_MINUTES := ScheduleField("tour", 0, Interval(90))

  const EDITED_BOTH_WAYS := BOTH_WAYS.(intervalMin := 90)

  lemma BothWaysIsAccepted()
    ensures AllResolved([BOTH_WAYS]) && Accepted([BOTH_WAYS], 60)
    ensures AllResolved([EDITED_BOTH_WAYS]) && Fault([EDITED_BOTH_WAYS], 60, LastStartAndLastEnd(0))
    ensures DerivedLastStart(EDITED_BOTH_WAYS, 60) == 990
  {
    assert DerivedLastStart(BOTH_WAYS, 60) == 1020;
    assert RuleFault([EDITED_BOTH_WAYS][0], 60, 0, LastStartAndLastEnd(0));
    forall issue ensures !Fault([BOTH_WAYS], 60, issue) {
      assert !RuleFault([BOTH_WAYS][0], 60, 0, issue);
    }
  }

  lemma BothWaysEdited()
    ensures var file := EditAll(BOTH_WAYS_CONFIG, [EVERY_NINETY_MINUTES]);
            "tour" in file.services && file.services["tour"].Owns() && file.services["tour"].durationMin == 60
            && file.services["tour"].schedule.value == [EDITED_BOTH_WAYS]
  {
    EditsOneMore(BOTH_WAYS_CONFIG, [], EVERY_NINETY_MINUTES);
    assert [] + [EVERY_NINETY_MINUTES] == [EVERY_NINETY_MINUTES];
  }

  lemma BothWaysIsDefined()
    ensures AsDeclared(BOTH_WAYS_CONFIG) && Decodable([Some(EVERY_NINETY_MINUTES)]) == [EVERY_NINETY_MINUTES]
    ensures AllDefined(Resolve(BOTH_WAYS_CONFIG), [EVERY_NINETY_MINUTES])
  {
    assert [Some(EVERY_NINETY_MINUTES)][..0] == [];
    assert "tour" in Resolve(BOTH_WAYS_CONFIG).services;
  }

  /** The validator accepts it. With the interval edited, the overlay derives an earlier last
      departure, while the edited file keeps the declared one and is refused. */
  lemma BothWaysDisagree()
    ensures AllResolved([BOTH_WAYS]) && Accepted([BOTH_WAYS], 60)
    ensures AllResolved([EDITED_BOTH_WAYS]) && Fault([EDITED_BOTH_WAYS], 60, LastStartAndLastEnd(0))
    ensures var rows := [Some(EVERY_NINETY_MINUTES)];
            && AsDeclared(BOTH_WAYS_CONFIG) && AllDefined(Resolve(BOTH_WAYS_CONFIG), Decodable(rows))
            && Parsed(EditAll(BOTH_WAYS_CONFIG, Decodable(rows))) && Parsed(Overlaid(Resolve(BOTH_WAYS_CONFIG), rows))
            && Resolve(Overlaid(Resolve(BOTH_WAYS_CONFIG), rows)) != Resolve(EditAll(BOTH_WAYS_CONFIG, Decodable(rows)))
  {
    BothWaysIsAccepted();
    BothWaysEdited();
    BothWaysIsDefined();
    OverlayAgreesWithEditing(BOTH_WAYS_CONFIG, [Some(EVERY_NINETY_MINUTES)]);
    StaleIsStale(EditAll(BOTH_WAYS_CONFIG, [EVERY_NINETY_MINUTES]), "tour", 0);
  }

  lemma StaleIsStale(c: Config, slug: string, i: nat)
    requires Parsed(c) && slug in c.services && c.services[slug].Owns() && i < |c.services[slug].schedule.value|
    requires DeclaresBoth(c.services[slug].schedule.value[i]) && c.services[slug].schedule.value[i].Parsed()
    requires DerivedLastStart(c.services[slug].schedule.value[i], c.services[slug].durationMin)
          != c.services[slug].schedule.value[i].lastStart.value
    ensures !NothingStale(c)
  {
    assert ServiceParsed(c.services[slug]) && !NoStaleDeparture(c.services[slug]);
  }
}
