/** The calendar's event icons: an ordered table of keyword groups, each
    with an icon, a colour and a category, and a classifier that picks the
    first group one of whose keywords occurs in the lower-cased title and
    description. */
module EventIconMapper {
  import opened Wrappers
  import opened JsStrings
  import opened Colors

  datatype IconMapping = IconMapping(keywords: seq<string>, icon: string, color: string, category: string)

  datatype EventIcon = EventIcon(icon: string, color: string, category: string)

  /** The keyword groups, one constant each. */
  const BIRTHDAY_GROUP := IconMapping(["birthday", "bday", "anniversary", "celebration"], "balloon-outline", "#FF8C42", "celebration")
  const PARTY_GROUP := IconMapping(["party", "gathering", "social"], "people-outline", "#FF8C42", "celebration")
  const WEDDING_GROUP := IconMapping(["wedding", "marriage"], "heart-outline", "#E84C3D", "celebration")
  const MEETING_GROUP := IconMapping(["meeting", "call", "zoom", "teams", "video call", "conference"], "videocam-outline", "#5B9BD5", "work")
  const INTERVIEW_GROUP := IconMapping(["interview", "presentation", "demo"], "people-circle-outline", "#5B9BD5", "work")
  const DEADLINE_GROUP := IconMapping(["deadline", "due", "submit"], "time-outline", "#E84C3D", "work")
  const WORK_GROUP := IconMapping(["work", "office", "shift"], "briefcase-outline", "#757575", "work")
  const MEDICAL_GROUP := IconMapping(["doctor", "dentist", "appointment", "medical", "clinic", "hospital", "checkup"], "medical-outline", "#E84C3D", "health")
  const FITNESS_GROUP := IconMapping(["workout", "gym", "exercise", "fitness", "yoga"], "fitness-outline", "#4CAF50", "health")
  const THERAPY_GROUP := IconMapping(["therapy", "counseling"], "chatbubbles-outline", "#5B9BD5", "health")
  const FLIGHT_GROUP := IconMapping(["flight", "fly", "airport", "plane"], "airplane-outline", "#5B9BD5", "travel")
  const VACATION_GROUP := IconMapping(["vacation", "holiday", "trip", "travel"], "earth-outline", "#5B9BD5", "travel")
  const CAR_GROUP := IconMapping(["car", "drive", "road trip"], "car-outline", "#757575", "travel")
  const TRAIN_GROUP := IconMapping(["train", "subway", "metro"], "train-outline", "#757575", "travel")
  const MEAL_GROUP := IconMapping(["lunch", "dinner", "breakfast", "brunch", "meal"], "restaurant-outline", "#FF8C42", "food")
  const COFFEE_GROUP := IconMapping(["coffee", "cafe"], "cafe-outline", "#FF8C42", "food")
  const CLASS_GROUP := IconMapping(["class", "lesson", "course", "lecture", "school"], "school-outline", "#5B9BD5", "education")
  const STUDY_GROUP := IconMapping(["study", "exam", "test", "quiz"], "book-outline", "#5B9BD5", "education")
  const MOVIE_GROUP := IconMapping(["movie", "film", "cinema", "theater"], "film-outline", "#FF8C42", "entertainment")
  const CONCERT_GROUP := IconMapping(["concert", "show", "performance", "gig"], "musical-notes-outline", "#FF8C42", "entertainment")
  const GAME_GROUP := IconMapping(["game", "match", "sport"], "football-outline", "#4CAF50", "entertainment")
  const HOME_GROUP := IconMapping(["home", "house", "cleaning", "chores"], "home-outline", "#757575", "default")
  const SHOPPING_GROUP := IconMapping(["shopping", "groceries", "store", "buy"], "cart-outline", "#FF8C42", "default")
  const HAIRCUT_GROUP := IconMapping(["haircut", "salon", "barber"], "cut-outline", "#757575", "default")

  /** EVENT_ICON_MAPPINGS, in table order. */
  const EVENT_ICON_MAPPINGS: seq<IconMapping> := [
    BIRTHDAY_GROUP, PARTY_GROUP, WEDDING_GROUP, MEETING_GROUP, INTERVIEW_GROUP, DEADLINE_GROUP,
    WORK_GROUP, MEDICAL_GROUP, FITNESS_GROUP, THERAPY_GROUP, FLIGHT_GROUP, VACATION_GROUP,
    CAR_GROUP, TRAIN_GROUP, MEAL_GROUP, COFFEE_GROUP, CLASS_GROUP, STUDY_GROUP,
    MOVIE_GROUP, CONCERT_GROUP, GAME_GROUP, HOME_GROUP, SHOPPING_GROUP, HAIRCUT_GROUP
  ]

  /** The icon of an event no group matches. */
  const DEFAULT_ICON := EventIcon("calendar-outline", TEXT_SECONDARY, "default")

  /** `mapping.keywords.some(keyword => text.includes(keyword))`. */
  predicate Matches(m: IconMapping, text: string) {
    exists k :: 0 <= k < |m.keywords| && Includes(text, m.keywords[k])
  }

  /** `table.find(...)`, as the index of the first group that matches. */
  function FirstMatch(table: seq<IconMapping>, text: string): (r: Option<nat>)
    ensures r.None? <==> forall i :: 0 <= i < |table| ==> !Matches(table[i], text)
    ensures r.Some? ==> r.value < |table| && Matches(table[r.value], text)
    ensures r.Some? ==> forall j :: 0 <= j < r.value ==> !Matches(table[j], text)
  {
    if table == [] then None
    else if Matches(table[0], text) then Some(0)
    else
      match FirstMatch(table[1..], text)
      case None => None
      case Some(i) => Some(i + 1)
  }

  /** Group `i` matches and no group before it does. */
  predicate FirstMatching(i: nat, text: string)
    requires i < |EVENT_ICON_MAPPINGS|
  {
    && Matches(EVENT_ICON_MAPPINGS[i], text)
    && forall j :: 0 <= j < i ==> !Matches(EVENT_ICON_MAPPINGS[j], text)
  }

  /** The text searched: `${title} ${description || ''}`, lower-cased. */
  function SearchText(title: string, description: Option<string>): string {
    ToLower(title + " " + OrElse(description, ""))
  }

  /** The searched text is the title, one space and the description (none
      when missing), with no capital left. */
  lemma SearchTextShape(title: string, description: Option<string>)
    ensures var t := SearchText(title, description);
      |t| == |title| + 1 + |OrElse(description, "")| && t[|title|] == ' ' && NoUpper(t)
  {
  }

  function IconOf(m: IconMapping): EventIcon {
    EventIcon(m.icon, m.color, m.category)
  }

  /** getEventIcon. */
  function GetEventIcon(title: string, description: Option<string>): (r: EventIcon)
    // the first group, in table order, with a keyword in the text decides the icon
    ensures forall i | 0 <= i < |EVENT_ICON_MAPPINGS| && FirstMatching(i, SearchText(title, description)) ::
      r == IconOf(EVENT_ICON_MAPPINGS[i])
    // no group matches: the calendar icon in the secondary text colour
    ensures (forall i :: 0 <= i < |EVENT_ICON_MAPPINGS| ==> !Matches(EVENT_ICON_MAPPINGS[i], SearchText(title, description)))
      ==> r == DEFAULT_ICON
  {
    var text := SearchText(title, description);
    match FirstMatch(EVENT_ICON_MAPPINGS, text)
    case None => DEFAULT_ICON
    case Some(i) => IconOf(EVENT_ICON_MAPPINGS[i])
  }

  /** The default icon is told apart from every group's: no group uses the calendar icon. */
  lemma DefaultIconIsDistinct(title: string, description: Option<string>)
    ensures GetEventIcon(title, description) == DEFAULT_ICON
      <==> forall i :: 0 <= i < |EVENT_ICON_MAPPINGS| ==> !Matches(EVENT_ICON_MAPPINGS[i], SearchText(title, description))
  {
    var text := SearchText(title, description);
    var r := FirstMatch(EVENT_ICON_MAPPINGS, text);
    if r.Some? {
      IconsAreNotCalendar(r.value);
    }
  }

  lemma IconsAreNotCalendar(i: nat)
    requires i < |EVENT_ICON_MAPPINGS|
    ensures EVENT_ICON_MAPPINGS[i].icon != "calendar-outline"
  {
  }

  lemma CategoryIsKnown(i: nat)
    requires i < |EVENT_ICON_MAPPINGS|
    ensures EVENT_ICON_MAPPINGS[i].category == "default" || EVENT_ICON_MAPPINGS[i].category in NAMED_CATEGORIES
  {
  }

  /** Every icon's category has a background in the colour table (or is the default). */
  lemma CategoriesAreKnown(title: string, description: Option<string>)
    ensures var c := GetEventIcon(title, description).category;
      c == "default" || c in NAMED_CATEGORIES
  {
    var r := FirstMatch(EVENT_ICON_MAPPINGS, SearchText(title, description));
    if r.Some? {
      CategoryIsKnown(r.value);
    }
  }

  /** Matching ignores case: shouting the title and description changes nothing. */
  lemma IgnoresCase(title: string, description: string)
    ensures GetEventIcon(ToUpper(title), Some(ToUpper(description))) == GetEventIcon(title, Some(description))
  {
    LowerAppend(ToUpper(title) + " ", ToUpper(description));
    LowerAppend(ToUpper(title), " ");
    LowerAppend(title + " ", description);
    LowerAppend(title, " ");
    LowerOfUpper(title);
    LowerOfUpper(description);
    assert description == "" <==> ToUpper(description) == "";
    assert SearchText(ToUpper(title), Some(ToUpper(description))) == SearchText(title, Some(description));
  }

  /** A missing description behaves as an empty one. */
  lemma MissingDescriptionIsEmpty(title: string)
    ensures GetEventIcon(title, None) == GetEventIcon(title, Some(""))
  {
  }

  /** A group misses a text when each of its keywords holds a character the
      text lacks; `witnesses[k]` is that character for keyword `k`. */
  lemma MissedByCharacters(m: IconMapping, text: string, witnesses: string)
    requires |witnesses| == |m.keywords|
    requires forall k :: 0 <= k < |witnesses| ==> witnesses[k] in m.keywords[k] && witnesses[k] !in text
    ensures !Matches(m, text)
  {
    forall k | 0 <= k < |m.keywords| ensures !Includes(text, m.keywords[k]) {
      NotIncludedByChar(text, m.keywords[k], witnesses[k]);
    }
  }

  /** No group before the work group matches "workout ": every keyword of
      theirs holds a letter that text lacks. */
  lemma WorkoutMissesBirthday()
    ensures !Matches(BIRTHDAY_GROUP, "workout ")
  {
    MissedByCharacters(BIRTHDAY_GROUP, "workout ", "bbac");
  }

  lemma WorkoutMissesParty()
    ensures !Matches(PARTY_GROUP, "workout ")
  {
    MissedByCharacters(PARTY_GROUP, "workout ", "pgs");
  }

  lemma WorkoutMissesWedding()
    ensures !Matches(WEDDING_GROUP, "workout ")
  {
    MissedByCharacters(WEDDING_GROUP, "workout ", "em");
  }

  lemma WorkoutMissesMeeting()
    ensures !Matches(MEETING_GROUP, "workout ")
  {
    MissedByCharacters(MEETING_GROUP, "workout ", "mczevc");
  }

  lemma WorkoutMissesInterview()
    ensures !Matches(INTERVIEW_GROUP, "workout ")
  {
    MissedByCharacters(INTERVIEW_GROUP, "workout ", "ipd");
  }

  lemma WorkoutMissesDeadline()
    ensures !Matches(DEADLINE_GROUP, "workout ")
  {
    MissedByCharacters(DEADLINE_GROUP, "workout ", "dds");
  }


  /** Both the work group ("work") and the fitness group ("workout") match "workout ". */
  lemma WorkoutMatchesWorkAndFitness()
    ensures Matches(WORK_GROUP, "workout ") && Matches(FITNESS_GROUP, "workout ")
  {
    IncludedAt("workout ", "work", 0);
    assert Includes("workout ", WORK_GROUP.keywords[0]);
    IncludedAt("workout ", "workout", 0);
    assert Includes("workout ", FITNESS_GROUP.keywords[0]);
  }

  /** The groups before the work group, by name. */
  lemma TableStart()
    ensures EVENT_ICON_MAPPINGS[..6] == [BIRTHDAY_GROUP, PARTY_GROUP, WEDDING_GROUP, MEETING_GROUP, INTERVIEW_GROUP, DEADLINE_GROUP]
  {
  }

  lemma WorkEntry()
    ensures EVENT_ICON_MAPPINGS[6] == WORK_GROUP
  {
  }

  /** The work group is the first to match "workout ". */
  lemma WorkoutFirstMatchesWork()
    ensures FirstMatching(6, "workout ")
  {
    TableStart();
    WorkEntry();
    WorkoutMatchesWorkAndFitness();
    WorkoutMissesBirthday();
    WorkoutMissesParty();
    WorkoutMissesWedding();
    WorkoutMissesMeeting();
    WorkoutMissesInterview();
    WorkoutMissesDeadline();
    forall j | 0 <= j < 6 ensures !Matches(EVENT_ICON_MAPPINGS[j], "workout ") {
      assert EVENT_ICON_MAPPINGS[j] == EVENT_ICON_MAPPINGS[..6][j];
    }
  }

  /** A title that lower-cases to "workout" is searched as "workout ". */
  lemma WorkoutSearchText(title: string)
    requires ToLower(title) == "workout"
    ensures SearchText(title, None) == "workout "
  {
    LowerAppend(title, " ");
    LowerOfLowerCase(" ");
  }

  /** First match wins over substrings: "workout", in any case, holds the
      keyword "work", so it gets the briefcase of the work group, although
      the fitness group lists "workout" itself. */
  lemma WorkoutIsWork(title: string)
    requires ToLower(title) == "workout"
    ensures Matches(FITNESS_GROUP, SearchText(title, None))
    ensures GetEventIcon(title, None) == IconOf(WORK_GROUP)
    ensures GetEventIcon(title, None).icon == "briefcase-outline"
  {
    WorkoutSearchText(title);
    WorkoutMatchesWorkAndFitness();
    WorkoutFirstMatchesWork();
    WorkEntry();
  }
}
