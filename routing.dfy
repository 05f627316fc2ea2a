/** handle_message (bot.py:160-176): the six fixed button labels and the
    action each one starts; any other text gets the "use the buttons"
    answer. */
module Routing {

  datatype Action = StartAdd | StartDelete | StartEdit | ShowSchedule | ClearAll | ShowHelp | UseButtons

  const ADD_LABEL: string := "Добавить задачу"
  const DELETE_LABEL: string := "Удалить задачу"
  const EDIT_LABEL: string := "Редактировать задачу"
  const VIEW_LABEL: string := "Показать расписание"
  const CLEAR_LABEL: string := "Очистить всё"
  const HELP_LABEL: string := "Помощь"

  /** The label that selects an action; the fallback has none. */
  function Label(a: Action): string
    requires a != UseButtons
  {
    match a
    case StartAdd => ADD_LABEL
    case StartDelete => DELETE_LABEL
    case StartEdit => EDIT_LABEL
    case ShowSchedule => VIEW_LABEL
    case ClearAll => CLEAR_LABEL
    case ShowHelp => HELP_LABEL
  }

  /** The action handle_message takes on text: the label's action when the
      text is exactly one of the six labels, the fallback otherwise. */
  function Route(text: string): (a: Action)
    ensures a == UseButtons <==> text !in {ADD_LABEL, DELETE_LABEL, EDIT_LABEL, VIEW_LABEL, CLEAR_LABEL, HELP_LABEL}
    ensures a != UseButtons ==> Label(a) == text
  {
    if text == ADD_LABEL then StartAdd
    else if text == DELETE_LABEL then StartDelete
    else if text == EDIT_LABEL then StartEdit
    else if text == VIEW_LABEL then ShowSchedule
    else if text == CLEAR_LABEL then ClearAll
    else if text == HELP_LABEL then ShowHelp
    else UseButtons
  }

  /** Every action other than the fallback is reached by its own label, so
      the six labels are pairwise different. */
  lemma RouteLabel(a: Action)
    requires a != UseButtons
    ensures Route(Label(a)) == a
  {
  }
}
