/** The home screen's list of today's medication reminders and marking one of
    them as taken. */
module Home {
  import Lists
  import opened Shared

  /** A reminder on the home screen (`interface MedicationReminder`). */
  datatype MedicationReminder = MedicationReminder(
    id: string, name: string, time: string, status: DoseStatus, dosage: string)

  /** `handleMarkAsTaken`: every reminder with `id` becomes taken and keeps its
      name, time and dosage; all other reminders stay as they are, in place. */
  function MarkAsTaken(reminders: seq<MedicationReminder>, id: string): (r: seq<MedicationReminder>)
    ensures |r| == |reminders|
    ensures forall i :: 0 <= i < |r| ==>
      if reminders[i].id == id
      then r[i].status == Taken && r[i] == reminders[i].(status := r[i].status)
      else r[i] == reminders[i]
  {
    Lists.ReplaceWhere(reminders, (m: MedicationReminder) => m.id == id,
      (m: MedicationReminder) => m.(status := Taken))
  }

  /** Marking a reminder taken twice is marking it once. */
  lemma MarkAsTakenIdempotent(reminders: seq<MedicationReminder>, id: string)
    ensures MarkAsTaken(MarkAsTaken(reminders, id), id) == MarkAsTaken(reminders, id)
  {
  }

  /** Marking an id no reminder has changes nothing. */
  lemma MarkAsTakenUnknownId(reminders: seq<MedicationReminder>, id: string)
    requires forall i :: 0 <= i < |reminders| ==> reminders[i].id != id
    ensures MarkAsTaken(reminders, id) == reminders
  {
  }

  /** Two reminders marked taken end up the same whichever is marked first. */
  lemma MarkAsTakenCommutes(reminders: seq<MedicationReminder>, a: string, b: string)
    ensures MarkAsTaken(MarkAsTaken(reminders, a), b) == MarkAsTaken(MarkAsTaken(reminders, b), a)
  {
  }

  /** The screen's reminder list. */
  class HomeScreen {
    var reminders: seq<MedicationReminder>

    constructor (initial: seq<MedicationReminder>)
      ensures reminders == initial
    {
      reminders := initial;
    }

    /** `handleMarkAsTaken`. */
    method MarkReminderTaken(id: string)
      modifies this
      ensures reminders == MarkAsTaken(old(reminders), id)
    {
      reminders := MarkAsTaken(reminders, id);
    }
  }
}
