/** Worked examples: concrete drafts and the resources and queries they give. */
module Scenarios {
  import opened Wrappers
  import opened Payloads

  lemma EventScenario()
    ensures var r := EventResourceOf(EventDraft("Dentist", "Checkup", "2024-01-15", "15:00", "2024-01-15", "16:00", None));
            r.start.dateTime == "2024-01-15T15:00:00" && r.end.dateTime == "2024-01-15T16:00:00" &&
            r.location == "" && r.reminders.overrides == [Reminder("email", 1440), Reminder("popup", 30)]
  {
  }

  lemma TaskScenario()
    ensures TaskResourceOf(TaskDraft("Submit form", "", "2024-01-20", "high")).due == "2024-01-20T23:59:59.000Z"
  {
  }
}
