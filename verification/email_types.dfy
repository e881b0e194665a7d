/** The record shapes of `src/types/email.ts`, plus the raw row the processor
    reads. Dates are integer timestamps in milliseconds (the parsing of the
    date text happens before these records are built). */
module EmailTypes {

  datatype Option<T> = None | Some(value: T)

  datatype Priority = Urgent | Normal

  datatype Sentiment = Positive | Negative | Neutral

  datatype Status = Pending | Resolved

  /** The part of `metadata` the model keeps. */
  datatype Metadata = Metadata(wordCount: nat, hasAttachments: bool)

  datatype ExtractedInfo = ExtractedInfo(
    contactDetails: seq<string>,
    requirements: seq<string>,
    sentimentIndicators: seq<string>,
    metadata: Metadata)

  /** A processed support email. `aiResponse` and `responseGenerated` are the
      optional fields of the interface: `None` stands for an absent response. */
  datatype Email = Email(
    id: string,
    sender: string,
    subject: string,
    body: string,
    sentDate: int,
    priority: Priority,
    sentiment: Sentiment,
    category: string,
    status: Status,
    extractedInfo: ExtractedInfo,
    aiResponse: Option<string>,
    responseGenerated: bool)

  /** One loaded row as the processor reads it: `id`, `sender`, `subject`,
      `body` and `sent_date` (already turned into a timestamp). */
  datatype RawEmail = RawEmail(id: string, sender: string, subject: string, body: string, sentDate: int)

  datatype SentimentBreakdown = SentimentBreakdown(positive: nat, negative: nat, neutral: nat)

  datatype PriorityBreakdown = PriorityBreakdown(urgent: nat, normal: nat)

  datatype EmailStats = EmailStats(
    totalEmails: nat,
    emailsLast24h: nat,
    emailsResolved: nat,
    emailsPending: nat,
    sentimentBreakdown: SentimentBreakdown,
    priorityBreakdown: PriorityBreakdown)
}
