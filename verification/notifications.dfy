/** The notification settings form (src/components/settings/NotificationsForm.tsx):
    the initial switches, the merge of stored settings over the defaults, one
    switch at a time, and the save request. The profile read and the save call are
    remote, so their outcomes are inputs. */
module Notifications {
  import opened Wrappers

  datatype Settings = Settings(
    taskAssignments: bool,
    taskUpdates: bool,
    taskCompletions: bool,
    reminders: bool,
    emailNotifications: bool)

  /** Everything on except e-mail. */
  const Defaults := Settings(true, true, true, true, false)

  /** Stored settings: a `Record<string, boolean>` in which any key may be missing. */
  datatype Stored = Stored(
    taskAssignments: Option<bool>,
    taskUpdates: Option<bool>,
    taskCompletions: Option<bool>,
    reminders: Option<bool>,
    emailNotifications: Option<bool>)

  /** `stored ?? default`: only a missing value takes the default, so a stored false
      stays false. */
  function Coalesce(stored: Option<bool>, default: bool): (r: bool)
    ensures stored.Some? ==> r == stored.value
    ensures stored.None? ==> r == default
  {
    if stored.Some? then stored.value else default
  }

  /** The stored settings over the defaults, key by key. */
  function Merge(s: Stored): (r: Settings)
    ensures r.taskAssignments == Coalesce(s.taskAssignments, Defaults.taskAssignments)
    ensures r.taskUpdates == Coalesce(s.taskUpdates, Defaults.taskUpdates)
    ensures r.taskCompletions == Coalesce(s.taskCompletions, Defaults.taskCompletions)
    ensures r.reminders == Coalesce(s.reminders, Defaults.reminders)
    ensures r.emailNotifications == Coalesce(s.emailNotifications, Defaults.emailNotifications)
  {
    Settings(Coalesce(s.taskAssignments, true), Coalesce(s.taskUpdates, true),
             Coalesce(s.taskCompletions, true), Coalesce(s.reminders, true),
             Coalesce(s.emailNotifications, false))
  }

  /** A stored record without any key gives the defaults. */
  lemma MergeEmpty()
    ensures Merge(Stored(None, None, None, None, None)) == Defaults
  {
  }

  /** A stored false is kept even where the default is true. */
  lemma MergeKeepsFalse(s: Stored)
    requires s.taskAssignments == Some(false)
    ensures !Merge(s).taskAssignments
  {
  }

  /** The record a save sends: every key, as the switches show it. */
  function ToStored(st: Settings): (r: Stored)
    ensures r.taskAssignments.Some? && r.taskUpdates.Some? && r.taskCompletions.Some?
    ensures r.reminders.Some? && r.emailNotifications.Some?
  {
    Stored(Some(st.taskAssignments), Some(st.taskUpdates), Some(st.taskCompletions),
           Some(st.reminders), Some(st.emailNotifications))
  }

  /** The fetch on mount: with a user id and a stored record the merge replaces the
      switches; without a user, on an error or with nothing stored they stay. */
  function Load(st: Settings, userId: Option<string>, fetched: Response<Option<Stored>>): (r: Settings)
    ensures !Truthy(userId) ==> r == st
    ensures fetched.Err? || (fetched.Ok? && fetched.value.None?) ==> r == st
    ensures Truthy(userId) && fetched.Ok? && fetched.value.Some? ==> r == Merge(fetched.value.value)
  {
    if Truthy(userId) && fetched.Ok? && fetched.value.Some? then Merge(fetched.value.value) else st
  }

  /** What was saved loads back unchanged. */
  lemma SaveThenLoad(st: Settings, other: Settings, userId: string)
    requires userId != ""
    ensures Load(other, Some(userId), Ok(Some(ToStored(st)))) == st
  {
  }

  datatype Key = TaskAssignments | TaskUpdates | TaskCompletions | Reminders | EmailNotifications

  function Get(st: Settings, k: Key): bool
  {
    match k
    case TaskAssignments => st.taskAssignments
    case TaskUpdates => st.taskUpdates
    case TaskCompletions => st.taskCompletions
    case Reminders => st.reminders
    case EmailNotifications => st.emailNotifications
  }

  /** One switch: `{ ...settings, [key]: checked }`. */
  function Toggle(st: Settings, k: Key, checked: bool): (r: Settings)
    ensures Get(r, k) == checked
    ensures forall j :: j != k ==> Get(r, j) == Get(st, j)
  {
    match k
    case TaskAssignments => st.(taskAssignments := checked)
    case TaskUpdates => st.(taskUpdates := checked)
    case TaskCompletions => st.(taskCompletions := checked)
    case Reminders => st.(reminders := checked)
    case EmailNotifications => st.(emailNotifications := checked)
  }

  /** Setting a switch back to its previous value restores the settings. */
  lemma ToggleBack(st: Settings, k: Key, checked: bool)
    ensures Toggle(Toggle(st, k, checked), k, Get(st, k)) == st
  {
  }
}
