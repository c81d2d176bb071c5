/** The colours the screens derive from a note's importance string. The same
    switch is written out in the dashboard, the note view, the edit screen and
    the create form; it is defined once here. */
module Palette {
  import Notes

  /** The three importance levels the pickers offer. */
  datatype Importance = Reminder | Normal | Important

  const ReminderColor: string := "#7EE4EC"
  const NormalColor: string := "#FFD4CA"
  const ImportantColor: string := "#F45B69"

  /** Text colour on an Important card, and on every other card. */
  const White: string := "#fff"
  const Ink: string := "#114B5F"

  /** The picker value that selects `level`. */
  function Name(level: Importance): string
  {
    match level
    case Reminder => "Reminder"
    case Normal => "Normal"
    case Important => "Important"
  }

  /** The level a stored importance string stands for: the level it names,
      and Reminder for a string that names no level. */
  function Level(importance: string): (level: Importance)
    ensures forall l :: importance == Name(l) ==> level == l
    ensures (forall l :: importance != Name(l)) ==> level == Reminder
  {
    if importance == "Normal" then assert importance == Name(Normal); Normal
    else if importance == "Important" then assert importance == Name(Important); Important
    else Reminder
  }

  /** The card colour of each level. */
  function LevelColor(level: Importance): string
  {
    match level
    case Reminder => ReminderColor
    case Normal => NormalColor
    case Important => ImportantColor
  }

  /** `getColorByImportance` / `getBackgroundColor`: the string switch with a
      default branch. It agrees with reading the string as a level and taking
      that level's colour. */
  function BackgroundColor(importance: string): (color: string)
    ensures color == LevelColor(Level(importance))
  {
    match importance
    case "Reminder" => ReminderColor
    case "Normal" => NormalColor
    case "Important" => ImportantColor
    case _ => ReminderColor
  }

  /** `getTextColorByImportance`: white on Important cards, ink otherwise. */
  function TextColor(importance: string): (color: string)
    ensures color == White <==> Level(importance) == Important
    ensures color == White || color == Ink
  {
    if importance == "Important" then White else Ink
  }

  /** Reading the picker value of a level gives that level back. */
  lemma LevelOfName(level: Importance)
    ensures Level(Name(level)) == level
    ensures Level(Notes.DefaultImportance) == Reminder
  {
  }

  /** The three picker values get three different card colours. */
  lemma NamedLevelsDistinct()
    ensures BackgroundColor("Reminder") != BackgroundColor("Normal")
    ensures BackgroundColor("Normal") != BackgroundColor("Important")
    ensures BackgroundColor("Reminder") != BackgroundColor("Important")
    ensures forall a, b :: LevelColor(a) == LevelColor(b) ==> a == b
  {
  }

  /** A string the switch does not name falls to the default branch: the
      Reminder colour with ink text. */
  lemma UnrecognisedIsReminder(importance: string)
    requires importance != "Reminder" && importance != "Normal" && importance != "Important"
    ensures BackgroundColor(importance) == ReminderColor
    ensures BackgroundColor(importance) == BackgroundColor(Notes.DefaultImportance)
    ensures TextColor(importance) == Ink
  {
  }
}
