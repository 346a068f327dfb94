/**
 * The constraints and defaults the `Service` schema applies when a service document is saved
 * (backend/models/Service.js): required fields, a trimmed name, the category enumeration, the
 * minimum price and duration, and the defaults of capacity, isActive and each weekday's isOpen.
 */
module ServiceSchema {
  import opened Wrappers
  import opened JsStrings

  /** A time of day in minutes after midnight, the value an "HH:mm" string denotes. */
  type Minute = m: int | 0 <= m < 1440

  datatype Category = Restaurant | Entertainment | Beauty | Fitness | Shopping | Services | Facilities

  /** The stored spelling of each category. */
  function CategoryName(c: Category): string {
    match c
    case Restaurant => "restaurant"
    case Entertainment => "entertainment"
    case Beauty => "beauty"
    case Fitness => "fitness"
    case Shopping => "shopping"
    case Services => "services"
    case Facilities => "facilities"
  }

  /** The enumeration check: the category a string names, if it names one. */
  function ParseCategory(s: string): (r: Option<Category>)
    ensures r.Some? ==> CategoryName(r.value) == s
  {
    if s == "restaurant" then Some(Restaurant)
    else if s == "entertainment" then Some(Entertainment)
    else if s == "beauty" then Some(Beauty)
    else if s == "fitness" then Some(Fitness)
    else if s == "shopping" then Some(Shopping)
    else if s == "services" then Some(Services)
    else if s == "facilities" then Some(Facilities)
    else None
  }

  lemma CategoryRoundTrip(c: Category, s: string)
    ensures ParseCategory(CategoryName(c)) == Some(c)
    ensures ParseCategory(s).None? <==> forall k: Category :: CategoryName(k) != s
  {
    if ParseCategory(s).None? {
      forall k: Category ensures CategoryName(k) != s {
        match k
        case Restaurant =>
        case Entertainment =>
        case Beauty =>
        case Fitness =>
        case Shopping =>
        case Services =>
        case Facilities =>
      }
    }
  }

  datatype Weekday = Monday | Tuesday | Wednesday | Thursday | Friday | Saturday | Sunday

  /** The `availability` sub-document: one entry per weekday. */
  datatype Week<T> = Week(monday: T, tuesday: T, wednesday: T, thursday: T, friday: T, saturday: T, sunday: T) {
    function Get(d: Weekday): T {
      match d
      case Monday => monday
      case Tuesday => tuesday
      case Wednesday => wednesday
      case Thursday => thursday
      case Friday => friday
      case Saturday => saturday
      case Sunday => sunday
    }

    /** The same function applied to the entry of every day. */
    function Map<U>(f: T -> U): (w: Week<U>)
      ensures forall d: Weekday :: w.Get(d) == f(Get(d))
    {
      var w := Week(f(monday), f(tuesday), f(wednesday), f(thursday), f(friday), f(saturday), f(sunday));
      MapEntries(this, f, w);
      w
    }
  }

  lemma MapEntries<T, U>(week: Week<T>, f: T -> U, w: Week<U>)
    requires w == Week(f(week.monday), f(week.tuesday), f(week.wednesday), f(week.thursday),
                       f(week.friday), f(week.saturday), f(week.sunday))
    ensures forall d: Weekday :: w.Get(d) == f(week.Get(d))
  {
    forall d: Weekday ensures w.Get(d) == f(week.Get(d)) {
      match d
      case Monday =>
      case Tuesday =>
      case Wednesday =>
      case Thursday =>
      case Friday =>
      case Saturday =>
      case Sunday =>
    }
  }

  /** One weekday's hours as submitted: `open` and `close` are optional, `isOpen` may be absent. */
  datatype DayDoc = DayDoc(open: Option<Minute>, close: Option<Minute>, isOpen: Option<bool>)

  /** One weekday's hours as stored. */
  datatype DayHours = DayHours(open: Option<Minute>, close: Option<Minute>, isOpen: bool)

  /** A service document before the schema is applied; None is a field that was not given. */
  datatype ServiceDoc = ServiceDoc(
    name: Option<string>,
    description: Option<string>,
    category: Option<string>,
    store: Option<string>,
    price: Option<real>,
    duration: Option<int>,
    capacity: Option<int>,
    isActive: Option<bool>,
    availability: Week<DayDoc>)

  /** A stored service. */
  datatype Service = Service(
    name: string,
    description: string,
    category: Category,
    store: string,
    price: real,
    duration: int,
    capacity: int,
    isActive: bool,
    availability: Week<DayHours>)

  /** The paths the schema validates, and why a path fails. */
  datatype Path = NamePath | DescriptionPath | CategoryPath | StorePath | PricePath | DurationPath
  datatype ErrorKind = Required | BelowMinimum | NotInEnumeration

  const AllPaths: set<Path> := {NamePath, DescriptionPath, CategoryPath, StorePath, PricePath, DurationPath}

  lemma AllPathsComplete()
    ensures forall p: Path :: p in AllPaths
  {
    forall p: Path ensures p in AllPaths {
      match p
      case NamePath =>
      case DescriptionPath =>
      case CategoryPath =>
      case StorePath =>
      case PricePath =>
      case DurationPath =>
    }
  }

  /** A required string fails when it is absent or empty (the name after trimming). */
  function PathError(doc: ServiceDoc, p: Path): (r: Option<ErrorKind>)
    ensures r == Some(NotInEnumeration) ==> p == CategoryPath
    ensures r == Some(BelowMinimum) ==> p == PricePath || p == DurationPath
    ensures r.None? ==>
      && (p == NamePath ==> doc.name.Some? && doc.name.value != "")
      && (p == DescriptionPath ==> doc.description.Some? && doc.description.value != "")
      && (p == CategoryPath ==> doc.category.Some? && ParseCategory(doc.category.value).Some?)
      && (p == StorePath ==> doc.store.Some?)
      && (p == PricePath ==> doc.price.Some? && doc.price.value >= 0.0)
      && (p == DurationPath ==> doc.duration.Some? && doc.duration.value >= 15)
  {
    match p
    case NamePath => if doc.name.None? || Trim(doc.name.value) == "" then Some(Required) else None
    case DescriptionPath => if doc.description.None? || doc.description.value == "" then Some(Required) else None
    case CategoryPath =>
      if doc.category.None? || doc.category.value == "" then Some(Required)
      else if ParseCategory(doc.category.value).None? then Some(NotInEnumeration)
      else None
    case StorePath => if doc.store.None? then Some(Required) else None
    case PricePath =>
      if doc.price.None? then Some(Required) else if doc.price.value < 0.0 then Some(BelowMinimum) else None
    case DurationPath =>
      if doc.duration.None? then Some(Required) else if doc.duration.value < 15 then Some(BelowMinimum) else None
  }

  /** Every failing path with its reason: validation reports them all at once. */
  function Errors(doc: ServiceDoc): (e: map<Path, ErrorKind>)
    ensures forall p: Path :: p in e <==> PathError(doc, p).Some?
    ensures forall p | p in e :: PathError(doc, p) == Some(e[p])
  {
    var e := map p | p in AllPaths && PathError(doc, p).Some? :: PathError(doc, p).value;
    AllPathsComplete();
    e
  }

  /** `isOpen` of a weekday, which defaults to true. */
  function DayDefaults(d: DayDoc): (h: DayHours)
    ensures h.open == d.open && h.close == d.close
    ensures h.isOpen <==> d.isOpen != Some(false)
  {
    DayHours(d.open, d.close, d.isOpen.GetOr(true))
  }

  /** What every stored service satisfies. */
  function Valid(s: Service): (r: bool)
    ensures r ==> forall p: Path :: PathError(ToDoc(s), p).None?
  {
    CategoryRoundTrip(s.category, "");
    && s.name != "" && Trim(s.name) == s.name
    && s.description != ""
    && s.price >= 0.0
    && s.duration >= 15
  }

  /** Validation followed by casting: the stored service, or the map of failing paths. */
  function ApplySchema(doc: ServiceDoc): (r: Result<Service, map<Path, ErrorKind>>)
    ensures r.Failure? <==> exists p: Path :: PathError(doc, p).Some?
    ensures r.Failure? ==> r.error == Errors(doc)
    ensures r.Success? ==>
      && Valid(r.value)
      && doc.name.Some? && r.value.name == Trim(doc.name.value)
      && Some(r.value.description) == doc.description
      && Some(CategoryName(r.value.category)) == doc.category
      && Some(r.value.store) == doc.store
      && Some(r.value.price) == doc.price
      && Some(r.value.duration) == doc.duration
      && r.value.capacity == doc.capacity.GetOr(1)
      && r.value.isActive == doc.isActive.GetOr(true)
      && forall d: Weekday :: r.value.availability.Get(d) == DayDefaults(doc.availability.Get(d))
  {
    var e := Errors(doc);
    if e != map[] then
      var p :| p in e;
      assert PathError(doc, p).Some?;
      Failure(e)
    else
      assert PathError(doc, NamePath).None? && PathError(doc, CategoryPath).None?;
      assert PathError(doc, DescriptionPath).None? && PathError(doc, StorePath).None?;
      assert PathError(doc, PricePath).None? && PathError(doc, DurationPath).None?;
      TrimIdempotent(doc.name.value);
      TrimEmptyIff(doc.name.value);
      TrimEmptyIff(Trim(doc.name.value));
      Success(Service(
        Trim(doc.name.value),
        doc.description.value,
        ParseCategory(doc.category.value).value,
        doc.store.value,
        doc.price.value,
        doc.duration.value,
        doc.capacity.GetOr(1),
        doc.isActive.GetOr(true),
        doc.availability.Map(DayDefaults)))
  }

  /** A stored service written back as a document, every field given. */
  function ToDoc(s: Service): ServiceDoc {
    ServiceDoc(
      Some(s.name), Some(s.description), Some(CategoryName(s.category)), Some(s.store),
      Some(s.price), Some(s.duration), Some(s.capacity), Some(s.isActive),
      s.availability.Map((h: DayHours) => DayDoc(h.open, h.close, Some(h.isOpen))))
  }

  /** Saving a valid service again stores exactly that service. */
  lemma SchemaRoundTrip(s: Service)
    requires Valid(s)
    ensures ApplySchema(ToDoc(s)) == Success(s)
  {
    var doc := ToDoc(s);
    CategoryRoundTrip(s.category, "");
    forall p: Path ensures PathError(doc, p).None? {
      match p
      case NamePath =>
      case DescriptionPath =>
      case CategoryPath =>
      case StorePath =>
      case PricePath =>
      case DurationPath =>
    }
    var r := ApplySchema(doc).value;
    assert r.availability == s.availability by {
      forall d: Weekday ensures r.availability.Get(d) == s.availability.Get(d) { }
      assert r.availability.monday == r.availability.Get(Monday);
      assert r.availability.tuesday == r.availability.Get(Tuesday);
      assert r.availability.wednesday == r.availability.Get(Wednesday);
      assert r.availability.thursday == r.availability.Get(Thursday);
      assert r.availability.friday == r.availability.Get(Friday);
      assert r.availability.saturday == r.availability.Get(Saturday);
      assert r.availability.sunday == r.availability.Get(Sunday);
    }
  }

  /** A document that gives only the required fields gets capacity 1, is active, and is open on
      every weekday. */
  lemma DefaultsOfMinimalDocument(name: string, description: string, category: Category, store: string,
                                  price: real, duration: int)
    requires Trim(name) != "" && description != "" && price >= 0.0 && duration >= 15
    ensures var noHours := DayDoc(None, None, None);
      var doc := ServiceDoc(Some(name), Some(description), Some(CategoryName(category)), Some(store),
                            Some(price), Some(duration), None, None,
                            Week(noHours, noHours, noHours, noHours, noHours, noHours, noHours));
      && ApplySchema(doc).Success?
      && ApplySchema(doc).value.capacity == 1
      && ApplySchema(doc).value.isActive
      && forall d: Weekday :: ApplySchema(doc).value.availability.Get(d).isOpen
  {
    var noHours := DayDoc(None, None, None);
    var doc := ServiceDoc(Some(name), Some(description), Some(CategoryName(category)), Some(store),
                          Some(price), Some(duration), None, None,
                          Week(noHours, noHours, noHours, noHours, noHours, noHours, noHours));
    CategoryRoundTrip(category, "");
    PresentFieldsPass(doc);
    OpenByDefault(doc, ApplySchema(doc));
  }

  /** A saved document that gives no `isOpen` for a weekday is open on it. */
  lemma OpenByDefault(doc: ServiceDoc, r: Result<Service, map<Path, ErrorKind>>)
    requires r == ApplySchema(doc) && r.Success?
    requires forall d: Weekday :: doc.availability.Get(d).isOpen.None?
    ensures forall d: Weekday :: r.value.availability.Get(d).isOpen
  {
  }

  /** A document whose required fields are present and within bounds passes every path. */
  lemma PresentFieldsPass(doc: ServiceDoc)
    requires doc.name.Some? && Trim(doc.name.value) != ""
    requires doc.description.Some? && doc.description.value != ""
    requires doc.category.Some? && ParseCategory(doc.category.value).Some?
    requires doc.store.Some?
    requires doc.price.Some? && doc.price.value >= 0.0
    requires doc.duration.Some? && doc.duration.value >= 15
    ensures forall p: Path :: PathError(doc, p).None?
  {
    forall p: Path ensures PathError(doc, p).None? {
      match p
      case NamePath =>
      case DescriptionPath =>
      case CategoryPath =>
      case StorePath =>
      case PricePath =>
      case DurationPath =>
    }
  }

  /** A name of spaces only is missing, and a negative price and a short duration are both reported
      together with it. */
  lemma AllFailuresReported()
    ensures var noHours := DayDoc(None, None, None);
      var doc := ServiceDoc(Some("  "), Some("d"), Some("spa"), Some("s1"), Some(-1.0), Some(10), None, None,
                            Week(noHours, noHours, noHours, noHours, noHours, noHours, noHours));
      ApplySchema(doc) == Failure(map[NamePath := Required, CategoryPath := NotInEnumeration,
                                      PricePath := BelowMinimum, DurationPath := BelowMinimum])
  {
    var noHours := DayDoc(None, None, None);
    var doc := ServiceDoc(Some("  "), Some("d"), Some("spa"), Some("s1"), Some(-1.0), Some(10), None, None,
                          Week(noHours, noHours, noHours, noHours, noHours, noHours, noHours));
    TrimEmptyIff("  ");
    var expected := map[NamePath := Required, CategoryPath := NotInEnumeration,
                         PricePath := BelowMinimum, DurationPath := BelowMinimum];
    forall p: Path ensures (p in Errors(doc) <==> p in expected) && (p in expected ==> Errors(doc)[p] == expected[p]) {
      match p
      case NamePath =>
      case DescriptionPath =>
      case CategoryPath =>
      case StorePath =>
      case PricePath =>
      case DurationPath =>
    }
    assert Errors(doc) == expected;
  }
}
