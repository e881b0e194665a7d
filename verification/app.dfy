/** The list logic of the application shell `src/App.tsx`: the review order
    the loaded emails are sorted into, the search-and-filter predicate of the
    visible list, the dashboard counts, and the by-id status change. The
    stored collection is the field of an `Inbox`. */
module App {
  import opened Seqs
  import opened Text
  import opened EmailTypes
  import opened EmailProcessor

  // ---------------------------------------------------------------------------
  // Review order

  /** The comparator handed to `sort`: negative when `a` goes first. Urgent
      emails go before the others; within the same class the more recent
      `sentDate` goes first. */
  function Compare(a: Email, b: Email): int
  {
    if a.priority == Urgent && b.priority != Urgent then -1
    else if b.priority == Urgent && a.priority != Urgent then 1
    else b.sentDate - a.sentDate
  }

  /** `a` may stand before `b` in the sorted list. */
  predicate Before(a: Email, b: Email)
  {
    Compare(a, b) <= 0
  }

  /** No pair of the list is out of the comparator's order. */
  ghost predicate SortedForReview(s: seq<Email>)
  {
    forall p, q :: 0 <= p < q < |s| ==> Before(s[p], s[q])
  }

  /** The comparator is consistent: swapping the arguments flips the sign,
      and the order it induces is total and transitive. */
  lemma CompareIsConsistent(a: Email, b: Email, c: Email)
    ensures Compare(a, b) == -Compare(b, a)
    ensures Before(a, b) || Before(b, a)
    ensures Before(a, b) && Before(b, c) ==> Before(a, c)
  {
  }

  /** Review order means exactly: every urgent email stands before every
      email that is not urgent, and within one class the dates never rise. */
  lemma SortedMeans(s: seq<Email>)
    ensures SortedForReview(s) <==>
      (forall p, q :: 0 <= p < q < |s| && s[q].priority == Urgent ==> s[p].priority == Urgent)
      && (forall p, q :: 0 <= p < q < |s| && (s[p].priority == Urgent <==> s[q].priority == Urgent)
            ==> s[p].sentDate >= s[q].sentDate)
  {
  }

  /** The in-place `sort` of the processed list, an insertion sort by
      adjacent swaps with the source's comparator. */
  method SortForReview(a: array<Email>)
    modifies a
    ensures SortedForReview(a[..])
    ensures multiset(a[..]) == multiset(old(a[..]))
  {
    var i := 0;
    while i < a.Length
      invariant 0 <= i <= a.Length
      invariant forall p, q :: 0 <= p < q < i ==> Before(a[p], a[q])
      invariant multiset(a[..]) == multiset(old(a[..]))
    {
      var j := i;
      while j > 0 && !Before(a[j - 1], a[j])
        invariant 0 <= j <= i
        invariant forall p, q :: 0 <= p < q <= i && p != j && q != j ==> Before(a[p], a[q])
        invariant forall q :: j < q <= i ==> Before(a[j], a[q])
        invariant multiset(a[..]) == multiset(old(a[..]))
      {
        a[j - 1], a[j] := a[j], a[j - 1];
        j := j - 1;
      }
      i := i + 1;
    }
  }

  // ---------------------------------------------------------------------------
  // Filtering the visible list

  /** A drop-down selection: `all`, or one value. */
  datatype Choice<T> = All | Only(value: T)

  predicate Allows<T(==)>(c: Choice<T>, v: T)
  {
    c.All? || c.value == v
  }

  /** The search term is empty or occurs, ignoring case, in the subject, the
      sender or the body. */
  predicate MatchesSearch(e: Email, term: string)
  {
    term == ""
    || Contains(Lower(e.subject), Lower(term))
    || Contains(Lower(e.sender), Lower(term))
    || Contains(Lower(e.body), Lower(term))
  }

  predicate Matches(e: Email, term: string, pf: Choice<Priority>, sf: Choice<Sentiment>, stf: Choice<Status>)
  {
    MatchesSearch(e, term) && Allows(pf, e.priority) && Allows(sf, e.sentiment) && Allows(stf, e.status)
  }

  /** `filteredEmails`: the emails that pass the search and all three
      selections, in list order; every email left out fails one of them. */
  function FilterEmails(emails: seq<Email>, term: string, pf: Choice<Priority>, sf: Choice<Sentiment>,
                        stf: Choice<Status>): (r: seq<Email>)
    ensures IsSubsequence(r, emails)
    ensures forall e :: e in r ==> Matches(e, term, pf, sf, stf)
    ensures forall e :: e in emails && e !in r ==> !Matches(e, term, pf, sf, stf)
    ensures forall e :: multiset(r)[e] == if Matches(e, term, pf, sf, stf) then multiset(emails)[e] else 0
  {
    KeepMultiset(emails, e => Matches(e, term, pf, sf, stf));
    Keep(emails, e => Matches(e, term, pf, sf, stf))
  }

  /** With an empty search and every selection at `all` the whole list shows. */
  lemma NoFilterShowsAll(emails: seq<Email>)
    ensures FilterEmails(emails, "", All, All, All) == emails
  {
    KeepAll(emails, e => Matches(e, "", All, All, All));
  }

  // ---------------------------------------------------------------------------
  // Dashboard counts

  /** 24 hours in milliseconds. */
  const DayMillis := 24 * 60 * 60 * 1000

  /** `stats`, with the current time `now` in milliseconds. An email counts
      as recent when it was sent no earlier than one day before `now`. */
  function ComputeStats(emails: seq<Email>, now: int): (st: EmailStats)
    ensures st.totalEmails == |emails|
    ensures st.emailsLast24h <= st.totalEmails
    ensures st.emailsResolved + st.emailsPending == st.totalEmails
    ensures st.sentimentBreakdown.positive + st.sentimentBreakdown.negative
            + st.sentimentBreakdown.neutral == st.totalEmails
    ensures st.priorityBreakdown.urgent + st.priorityBreakdown.normal == st.totalEmails
  {
    StatusCountsSum(emails);
    SentimentCountsSum(emails);
    PriorityCountsSum(emails);
    EmailStats(
      |emails|,
      RecentCount(emails, now),
      StatusCount(emails, Resolved),
      StatusCount(emails, Pending),
      SentimentBreakdown(
        SentimentCount(emails, Positive), SentimentCount(emails, Negative), SentimentCount(emails, Neutral)),
      PriorityBreakdown(PriorityCount(emails, Urgent), PriorityCount(emails, Normal)))
  }

  function RecentCount(emails: seq<Email>, now: int): nat
  {
    |Keep(emails, (e: Email) => e.sentDate >= now - DayMillis)|
  }

  function StatusCount(emails: seq<Email>, s: Status): nat
  {
    |Keep(emails, (e: Email) => e.status == s)|
  }

  function SentimentCount(emails: seq<Email>, s: Sentiment): nat
  {
    |Keep(emails, (e: Email) => e.sentiment == s)|
  }

  function PriorityCount(emails: seq<Email>, p: Priority): nat
  {
    |Keep(emails, (e: Email) => e.priority == p)|
  }

  lemma {:induction false} StatusCountsSum(emails: seq<Email>)
    ensures StatusCount(emails, Resolved) + StatusCount(emails, Pending) == |emails|
  {
    if emails != [] {
      StatusCountsSum(emails[1..]);
    }
  }

  lemma {:induction false} SentimentCountsSum(emails: seq<Email>)
    ensures SentimentCount(emails, Positive) + SentimentCount(emails, Negative)
            + SentimentCount(emails, Neutral) == |emails|
  {
    if emails != [] {
      SentimentCountsSum(emails[1..]);
    }
  }

  lemma {:induction false} PriorityCountsSum(emails: seq<Email>)
    ensures PriorityCount(emails, Urgent) + PriorityCount(emails, Normal) == |emails|
  {
    if emails != [] {
      PriorityCountsSum(emails[1..]);
    }
  }

  /** No emails, all counts zero. */
  lemma StatsEmpty(now: int)
    ensures ComputeStats([], now)
      == EmailStats(0, 0, 0, 0, SentimentBreakdown(0, 0, 0), PriorityBreakdown(0, 0))
  {
  }

  /** One more email adds one to the total and one to exactly the counters it
      belongs to: the recent count when it was sent no earlier than one day
      before `now` (the boundary included), its status, its sentiment and its
      priority. With `StatsEmpty` this fixes every count of every list. */
  lemma StatsAppend(s: seq<Email>, e: Email, now: int)
    ensures var before, after := ComputeStats(s, now), ComputeStats(s + [e], now);
      && after.totalEmails == before.totalEmails + 1
      && after.emailsLast24h == before.emailsLast24h + (if e.sentDate >= now - DayMillis then 1 else 0)
      && after.emailsResolved == before.emailsResolved + (if e.status == Resolved then 1 else 0)
      && after.emailsPending == before.emailsPending + (if e.status == Pending then 1 else 0)
      && after.sentimentBreakdown.positive
         == before.sentimentBreakdown.positive + (if e.sentiment == Positive then 1 else 0)
      && after.sentimentBreakdown.negative
         == before.sentimentBreakdown.negative + (if e.sentiment == Negative then 1 else 0)
      && after.sentimentBreakdown.neutral
         == before.sentimentBreakdown.neutral + (if e.sentiment == Neutral then 1 else 0)
      && after.priorityBreakdown.urgent == before.priorityBreakdown.urgent + (if e.priority == Urgent then 1 else 0)
      && after.priorityBreakdown.normal == before.priorityBreakdown.normal + (if e.priority == Normal then 1 else 0)
  {
    KeepAppend(s, [e], (e: Email) => e.sentDate >= now - DayMillis);
    StatusCountAppend(s, e, Resolved);
    StatusCountAppend(s, e, Pending);
    SentimentCountAppend(s, e, Positive);
    SentimentCountAppend(s, e, Negative);
    SentimentCountAppend(s, e, Neutral);
    PriorityCountAppend(s, e, Urgent);
    PriorityCountAppend(s, e, Normal);
  }

  lemma StatusCountAppend(s: seq<Email>, e: Email, x: Status)
    ensures StatusCount(s + [e], x) == StatusCount(s, x) + (if e.status == x then 1 else 0)
  {
    KeepAppend(s, [e], (e: Email) => e.status == x);
  }

  lemma SentimentCountAppend(s: seq<Email>, e: Email, x: Sentiment)
    ensures SentimentCount(s + [e], x) == SentimentCount(s, x) + (if e.sentiment == x then 1 else 0)
  {
    KeepAppend(s, [e], (e: Email) => e.sentiment == x);
  }

  lemma PriorityCountAppend(s: seq<Email>, e: Email, x: Priority)
    ensures PriorityCount(s + [e], x) == PriorityCount(s, x) + (if e.priority == x then 1 else 0)
  {
    KeepAppend(s, [e], (e: Email) => e.priority == x);
  }

  /** Every count depends only on which emails are listed, not on their
      order: sorting the list leaves the dashboard unchanged. */
  lemma StatsIgnoreOrder(s: seq<Email>, t: seq<Email>, now: int)
    requires multiset(s) == multiset(t)
    ensures ComputeStats(s, now) == ComputeStats(t, now)
  {
    assert |s| == |multiset(s)| == |t|;
    KeepLengthPermutation(s, t, (e: Email) => e.sentDate >= now - DayMillis);
    KeepLengthPermutation(s, t, (e: Email) => e.status == Resolved);
    KeepLengthPermutation(s, t, (e: Email) => e.status == Pending);
    KeepLengthPermutation(s, t, (e: Email) => e.sentiment == Positive);
    KeepLengthPermutation(s, t, (e: Email) => e.sentiment == Negative);
    KeepLengthPermutation(s, t, (e: Email) => e.sentiment == Neutral);
    KeepLengthPermutation(s, t, (e: Email) => e.priority == Urgent);
    KeepLengthPermutation(s, t, (e: Email) => e.priority == Normal);
  }

  // ---------------------------------------------------------------------------
  // Status change

  /** `handleStatusChange`: every email with the given id gets the new status;
      nothing else changes. */
  function WithStatus(emails: seq<Email>, id: string, s: Status): (r: seq<Email>)
    ensures |r| == |emails|
    ensures forall i :: 0 <= i < |r| ==> r[i].(status := emails[i].status) == emails[i]
    ensures forall i :: 0 <= i < |r| && emails[i].id == id ==> r[i].status == s
    ensures forall i :: 0 <= i < |r| && emails[i].id != id ==> r[i] == emails[i]
    ensures (forall e :: e in emails ==> e.id != id) ==> r == emails
  {
    seq(|emails|, i requires 0 <= i < |emails| => if emails[i].id == id then emails[i].(status := s) else emails[i])
  }

  /** Setting the same status twice is the same as setting it once. */
  lemma WithStatusIdempotent(emails: seq<Email>, id: string, s: Status)
    ensures WithStatus(WithStatus(emails, id, s), id, s) == WithStatus(emails, id, s)
  {
  }

  /** A status change leaves every sentiment and priority count as it was. */
  lemma {:induction false} StatusChangeKeepsCounts(emails: seq<Email>, id: string, s: Status,
                                                   x: Sentiment, p: Priority)
    ensures SentimentCount(WithStatus(emails, id, s), x) == SentimentCount(emails, x)
    ensures PriorityCount(WithStatus(emails, id, s), p) == PriorityCount(emails, p)
  {
    if emails != [] {
      var r := WithStatus(emails, id, s);
      assert WithStatus(emails[1..], id, s) == r[1..];
      assert r[0].sentiment == emails[0].sentiment && r[0].priority == emails[0].priority;
      StatusChangeKeepsCounts(emails[1..], id, s, x, p);
    }
  }

  /** A status change leaves the total and the sentiment and priority
      breakdowns of the dashboard as they were. */
  lemma StatusChangeKeepsBreakdowns(emails: seq<Email>, id: string, s: Status, now: int)
    ensures ComputeStats(WithStatus(emails, id, s), now).totalEmails == |emails|
    ensures ComputeStats(WithStatus(emails, id, s), now).sentimentBreakdown
            == ComputeStats(emails, now).sentimentBreakdown
    ensures ComputeStats(WithStatus(emails, id, s), now).priorityBreakdown
            == ComputeStats(emails, now).priorityBreakdown
  {
    StatusChangeKeepsCounts(emails, id, s, Positive, Urgent);
    StatusChangeKeepsCounts(emails, id, s, Negative, Normal);
    StatusChangeKeepsCounts(emails, id, s, Neutral, Normal);
  }

  // ---------------------------------------------------------------------------
  // The stored collection

  /** The k-th support email processed, with `fallbackId(k)` standing for the
      random id used when the row has none. */
  function ProcessAll(support: seq<RawEmail>, phoneMatches: string -> seq<string>,
                      addressMatches: string -> seq<string>, fallbackId: nat -> string): seq<Email>
  {
    seq(|support|, k requires 0 <= k < |support| => ProcessEmail(support[k], phoneMatches, addressMatches, fallbackId(k)))
  }

  /** The emails state of the application. */
  class Inbox {
    var emails: seq<Email>

    constructor ()
      ensures emails == []
    {
      emails := [];
    }

    /** `loadEmails`: keep the support emails, process each, sort them into
        review order and store the result. */
    method Load(raw: seq<RawEmail>, phoneMatches: string -> seq<string>,
                addressMatches: string -> seq<string>, fallbackId: nat -> string)
      modifies this
      ensures multiset(emails) == multiset(ProcessAll(FilterSupportEmails(raw), phoneMatches, addressMatches, fallbackId))
      ensures SortedForReview(emails)
    {
      var processed := ProcessAll(FilterSupportEmails(raw), phoneMatches, addressMatches, fallbackId);
      var a := new Email[|processed|](k requires 0 <= k < |processed| => processed[k]);
      assert a[..] == processed;
      SortForReview(a);
      emails := a[..];
    }

    /** `handleStatusChange`. */
    method SetStatus(id: string, s: Status)
      modifies this
      ensures emails == WithStatus(old(emails), id, s)
    {
      emails := WithStatus(emails, id, s);
    }

    /** The dashboard counts of the stored emails at time `now`. */
    function Stats(now: int): (st: EmailStats)
      reads this
      ensures st.totalEmails == |emails|
    {
      ComputeStats(emails, now)
    }

    /** The visible part of the stored emails. */
    function Visible(term: string, pf: Choice<Priority>, sf: Choice<Sentiment>, stf: Choice<Status>): (r: seq<Email>)
      reads this
      ensures IsSubsequence(r, emails)
    {
      FilterEmails(emails, term, pf, sf, stf)
    }
  }
}
