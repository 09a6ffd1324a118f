/** Messages of the scheduled-job queues, and what the consumer fills in when a message
    was pushed by hand. */
module JobQueue {
  import opened Common

  datatype Trigger = Cron | Manual | Promote

  // Instants are milliseconds since the epoch; a stamp that `new Date` cannot read has none.
  datatype Stamp = At(ms: int) | Unreadable

  // A `YYYY-MM-DD` label as its day number; anything else is malformed.
  datatype Label = Day(n: int) | Malformed

  datatype DayRange = DayRange(day: Label, through: Label)

  datatype InspectPayload = InspectPayload(runId: int, remaining: int, skipIds: seq<int>)

  datatype Body = Body(
    job: string,
    trigger: Option<Trigger>,
    enqueuedAt: Option<Stamp>,
    gscInspect: Option<InspectPayload>,
    trafficClassify: Option<DayRange>)

  datatype Message = Message(
    job: string,
    trigger: Trigger,
    enqueuedAt: Stamp,
    gscInspect: Option<InspectPayload>,
    trafficClassify: Option<DayRange>)

  function NormalizeJobMessage(body: Body, receivedAt: int): Message {
    Message(body.job,
            if body.trigger.Some? then body.trigger.value else Manual,
            if body.enqueuedAt.Some? then body.enqueuedAt.value else At(receivedAt),
            body.gscInspect,
            body.trafficClassify)
  }

  function AsBody(m: Message): Body {
    Body(m.job, Some(m.trigger), Some(m.enqueuedAt), m.gscInspect, m.trafficClassify)
  }

  /** A message sent with every field, as the cron and both chains send theirs, arrives
      unchanged whenever it is received. */
  lemma SentArrivesUnchanged(m: Message, receivedAt: int)
    ensures NormalizeJobMessage(AsBody(m), receivedAt) == m
  {
  }

  /** A message pushed by hand counts as manual and as enqueued when it was received, each where it
      does not say so itself; job and payloads are what it says. */
  lemma PushedByHand(body: Body, receivedAt: int)
    ensures var m := NormalizeJobMessage(body, receivedAt);
      && m.job == body.job && m.gscInspect == body.gscInspect && m.trafficClassify == body.trafficClassify
      && (body.trigger == None ==> m.trigger == Manual)
      && (forall t :: body.trigger == Some(t) ==> m.trigger == t)
      && (body.enqueuedAt == None ==> m.enqueuedAt == At(receivedAt))
      && (forall at :: body.enqueuedAt == Some(at) ==> m.enqueuedAt == at)
  {
  }

  const MS_PER_DAY := 86_400_000

  // The UTC day an instant falls on.
  function DayAt(ms: int): int { ms / MS_PER_DAY }
}
