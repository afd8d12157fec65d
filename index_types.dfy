/** The records of the Index screen (src/pages/Index.tsx:13-50) and the
    mock data the screen starts from (src/pages/Index.tsx:52-167). */
module IndexTypes {

  import opened Wrappers

  /** The author of an activity proposal. */
  datatype Author = Author(name: string, initials: string, verified: bool)

  /** One proposal of the discovery feed. */
  datatype Activity = Activity(
    id: string,
    title: string,
    description: string,
    category: string,
    user: Author,
    date: string,
    participants: nat)

  /** The closed set of meeting states: `'active' | 'completed' | 'failed'`. */
  datatype MeetingStatus = Active | Completed | Failed

  datatype RewardKind = Discount | Points

  /** The optional reward attached to a finished meeting. */
  datatype MeetingReward = MeetingReward(kind: RewardKind, value: string, partner: string)

  /** A meeting. `startTime` is a clock reading that no rule uses and is left
      out; `duration` is in whole minutes. */
  datatype Meeting = Meeting(
    id: string,
    partner: string,
    initials: string,
    status: MeetingStatus,
    duration: nat,
    mindfulnessPoints: nat,
    reward: Option<MeetingReward>)

  /** A partner reward that can be claimed for points. */
  datatype Reward = Reward(
    id: string,
    title: string,
    description: string,
    partner: string,
    discount: string,
    icon: string,
    pointsCost: int)

  /** The gesture that drives the feed: the "X" button is a left swipe, the
      heart button a right swipe. */
  datatype SwipeDirection = Left | Right

  const MockActivities: seq<Activity> := [
    Activity("1", "Шоппинг в ТЦ на выходных",
      "Ищу компанию для похода за одеждой. Хочу обновить гардероб к лету, нужен честный совет по выбору вещей!",
      "Шоппинг", Author("Анна", "АК", true), "15 января", 1),
    Activity("2", "Свадьба друга - нужен +1",
      "Приглашен на свадьбу с возможностью взять гостя. Будет весело, хорошая музыка и вкусная еда. Давай вместе отметим!",
      "Мероприятия", Author("Максим", "МП", true), "22 января", 1),
    Activity("3", "Поход в новый ресторан",
      "Открылся интересный азиатский ресторан в центре. Хочу попробовать, но одному не так интересно. Составишь компанию?",
      "Еда", Author("Елена", "ЕС", false), "18 января", 2),
    Activity("4", "Фитнес тренировка в зале",
      "Ищу напарника для утренних тренировок. Буду рад поделиться опытом или просто позаниматься вместе!",
      "Спорт", Author("Дмитрий", "ДВ", true), "Каждый день", 1)
  ]

  const MockMeetings: seq<Meeting> := [
    Meeting("1", "Анна", "АК", Active, 45, 0, None),
    Meeting("2", "Максим", "МП", Completed, 135, 150,
      Some(MeetingReward(Discount, "20% скидка", "Кофе Хауз")))
  ]

  const AvailableRewards: seq<Reward> := [
    Reward("1", "Скидка 30% в кино", "Билет на любой сеанс в Кинотеатре \"Мираж\"",
      "Кинотеатр \"Мираж\"", "30%", "Film", 200),
    Reward("2", "Боулинг: 1 час бесплатно", "Час игры в боулинг на двоих",
      "Cosmic Bowling", "100%", "Trophy", 300),
    Reward("3", "Кофе в подарок", "Любой напиток размера Medium",
      "Кофе Хауз", "Бесплатно", "Coffee", 100),
    Reward("4", "Ужин на двоих -50%", "Скидка на меню в будние дни",
      "Ресторан \"Seasons\"", "50%", "UtensilsCrossed", 250)
  ]

  /** The starting balance of mindfulness points. */
  const InitialPoints: int := 380
}
