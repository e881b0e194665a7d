/** The rule engine of `EmailProcessor` (src/services/emailProcessor.ts):
    the support-keyword gate, keyword-count sentiment, urgent-keyword priority,
    first-match categorisation, extraction of requirement windows, sentiment
    cues and a word count, and the templated reply. Everything is substring
    search over the lower-cased text against fixed tables. */
module EmailProcessor {
  import opened Seqs
  import opened Text
  import opened EmailTypes

  // ---------------------------------------------------------------------------
  // Fixed tables

  const SupportKeywords: seq<string> :=
    ["support", "query", "request", "help", "issue", "problem", "assistance"]
  const UrgentKeywords: seq<string> :=
    ["urgent", "immediately", "critical", "cannot access", "down", "emergency", "asap", "blocked"]
  const PositiveWords: seq<string> :=
    ["thank", "appreciate", "great", "excellent", "satisfied", "happy", "pleased"]
  const NegativeWords: seq<string> :=
    ["frustrated", "angry", "disappointed", "terrible", "awful", "hate", "worst", "unacceptable"]
  const RequirementIndicators: seq<string> :=
    ["need", "want", "require", "looking for", "help with", "issue with"]

  /** Length of the window a requirement is cut from. */
  const RequirementWindowLength: nat := 100

  /** The text every classifier and the extractor read: subject, a space, body. */
  function CombinedText(subject: string, body: string): (t: string)
    ensures |t| == |subject| + 1 + |body| && t[|subject|] == ' '
  {
    subject + " " + body
  }

  /** The words of `words` that occur in `lowerText`, in table order. */
  function Present(words: seq<string>, lowerText: string): seq<string>
  {
    Keep(words, w => Contains(lowerText, w))
  }

  /** How many distinct words of the table occur in the lower-cased text. */
  ghost function DistinctHits(words: seq<string>, text: string): nat
  {
    |set w | w in words && Contains(Lower(text), w)|
  }

  // ---------------------------------------------------------------------------
  // Support-relevance gate

  /** One email passes the gate when a support keyword occurs in its
      lower-cased subject or in its lower-cased body. */
  function IsSupportEmail(e: RawEmail): (r: bool)
    ensures r <==> exists k :: k in SupportKeywords
                           && (Contains(Lower(e.subject), k) || Contains(Lower(e.body), k))
  {
    var subject, body := Lower(e.subject), Lower(e.body);
    Any(SupportKeywords, k => Contains(subject, k) || Contains(body, k))
  }

  /** `filterSupportEmails`: keeps exactly the emails that pass the gate, in
      input order. */
  function FilterSupportEmails(emails: seq<RawEmail>): (r: seq<RawEmail>)
    ensures IsSubsequence(r, emails)
    ensures forall e :: e in r ==> IsSupportEmail(e)
    ensures forall e :: e in emails && IsSupportEmail(e) ==> e in r
    ensures forall e :: multiset(r)[e] == if IsSupportEmail(e) then multiset(emails)[e] else 0
  {
    KeepMultiset(emails, IsSupportEmail);
    Keep(emails, IsSupportEmail)
  }

  // ---------------------------------------------------------------------------
  // Sentiment and priority

  lemma TablesDistinct()
    ensures Distinct(PositiveWords) && Distinct(NegativeWords)
  {
  }

  /** `analyzeSentiment`: compares the number of distinct positive words and
      the number of distinct negative words present; a tie (0 against 0
      included) is neutral. */
  function AnalyzeSentiment(text: string): (r: Sentiment)
    ensures r == Negative <==> DistinctHits(NegativeWords, text) > DistinctHits(PositiveWords, text)
    ensures r == Positive <==> DistinctHits(PositiveWords, text) > DistinctHits(NegativeWords, text)
    ensures r == Neutral <==> DistinctHits(PositiveWords, text) == DistinctHits(NegativeWords, text)
  {
    var lower := Lower(text);
    var positiveCount := |Present(PositiveWords, lower)|;
    var negativeCount := |Present(NegativeWords, lower)|;
    HitCounts(text);
    if negativeCount > positiveCount then Negative
    else if positiveCount > negativeCount then Positive
    else Neutral
  }

  /** The counts used by `analyzeSentiment` are the numbers of distinct table
      words present, so at most 7 positive and at most 8 negative. */
  lemma HitCounts(text: string)
    ensures |Present(PositiveWords, Lower(text))| == DistinctHits(PositiveWords, text) <= 7
    ensures |Present(NegativeWords, Lower(text))| == DistinctHits(NegativeWords, text) <= 8
  {
    TablesDistinct();
    PresentCountsDistinct(PositiveWords, text);
    PresentCountsDistinct(NegativeWords, text);
  }

  lemma PresentCountsDistinct(words: seq<string>, text: string)
    requires Distinct(words)
    ensures |Present(words, Lower(text))| == DistinctHits(words, text) <= |words|
  {
    var present := Present(words, Lower(text));
    KeepDistinct(words, w => Contains(Lower(text), w));
    DistinctCardinality(present);
    assert (set w | w in present) == (set w | w in words && Contains(Lower(text), w));
  }

  /** `determinePriority`: urgent exactly when an urgent keyword occurs in the
      lower-cased text. */
  function DeterminePriority(text: string): (r: Priority)
    ensures r == Urgent <==> exists k :: k in UrgentKeywords && Contains(Lower(text), k)
  {
    var lower := Lower(text);
    if Any(UrgentKeywords, k => Contains(lower, k)) then Urgent else Normal
  }

  // ---------------------------------------------------------------------------
  // Category

  const Categories: set<string> :=
    {"Billing", "Account Access", "Technical", "Sales", "Refund", "General Support"}

  /** `categorizeEmail`: the first rule that matches the lower-cased subject
      decides, in the order billing/payment, login/access, integration/api,
      pricing, refund; otherwise "General Support". */
  function Categorize(subject: string): (r: string)
    ensures r in Categories
    ensures var s := Lower(subject);
      var billing := Contains(s, "billing") || Contains(s, "payment");
      var account := Contains(s, "login") || Contains(s, "access");
      var technical := Contains(s, "integration") || Contains(s, "api");
      (r == "Billing" <==> billing)
      && (r == "Account Access" <==> !billing && account)
      && (r == "Technical" <==> !billing && !account && technical)
      && (r == "Sales" <==> !billing && !account && !technical && Contains(s, "pricing"))
      && (r == "Refund" <==> !billing && !account && !technical && !Contains(s, "pricing")
                             && Contains(s, "refund"))
  {
    var s := Lower(subject);
    if Contains(s, "billing") || Contains(s, "payment") then "Billing"
    else if Contains(s, "login") || Contains(s, "access") then "Account Access"
    else if Contains(s, "integration") || Contains(s, "api") then "Technical"
    else if Contains(s, "pricing") then "Sales"
    else if Contains(s, "refund") then "Refund"
    else "General Support"
  }

  // ---------------------------------------------------------------------------
  // Extraction

  /** One requirement: the (at most) 100 characters of the original text from
      the first occurrence of the indicator in the lower-cased text, trimmed. */
  function RequirementWindow(text: string, indicator: string): (r: string)
    requires Contains(Lower(text), indicator)
    ensures |r| <= RequirementWindowLength
    ensures r == [] || (!IsWhitespace(r[0]) && !IsWhitespace(r[|r| - 1]))
  {
    var index := IndexOf(Lower(text), indicator);
    Trim(text[index..WindowEnd(text, index)])
  }

  /** Where the window that starts at `index` ends: 100 characters later, or
      at the end of the text. */
  function WindowEnd(text: string, index: nat): (stop: nat)
    requires index <= |text|
    ensures index <= stop <= |text| && stop - index <= RequirementWindowLength
    ensures stop - index == RequirementWindowLength || stop == |text|
  {
    if index + RequirementWindowLength < |text| then index + RequirementWindowLength else |text|
  }

  /** The requirement windows, one per indicator present, in table order. */
  function Requirements(text: string): (r: seq<string>)
    ensures |r| == |Present(RequirementIndicators, Lower(text))|
  {
    Windows(text, Present(RequirementIndicators, Lower(text)))
  }

  /** The window of each of `indicators`, in order. */
  function Windows(text: string, indicators: seq<string>): (r: seq<string>)
    requires forall ind :: ind in indicators ==> Contains(Lower(text), ind)
    ensures |r| == |indicators|
  {
    seq(|indicators|, i requires 0 <= i < |indicators| => RequirementWindow(text, indicators[i]))
  }

  /** Every indicator begins and ends with a lower-case letter, so trimming
      never cuts it. */
  lemma IndicatorsHaveLetterEnds()
    ensures forall ind :: ind in RequirementIndicators ==>
      0 < |ind| <= RequirementWindowLength && 'a' <= ind[0] <= 'z' && 'a' <= ind[|ind| - 1] <= 'z'
  {
  }

  /** A requirement window, lower-cased, begins with its indicator. */
  lemma WindowStartsWithIndicator(text: string, indicator: string)
    requires 0 < |indicator| <= RequirementWindowLength
    requires 'a' <= indicator[0] <= 'z' && 'a' <= indicator[|indicator| - 1] <= 'z'
    requires Contains(Lower(text), indicator)
    ensures StartsWith(Lower(RequirementWindow(text, indicator)), indicator)
  {
    var lower := Lower(text);
    var n := |indicator|;
    var index := IndexOf(lower, indicator);
    var stop := WindowEnd(text, index);
    assert OccursAt(lower, indicator, index);
    var x := text[index..stop];
    assert n <= |x|;
    assert Lower(x[..n]) == indicator by {
      assert x[..n] == text[index..index + n];
      LowerSlice(text, index, index + n);
    }
    LetterIsNotWhitespace(x[0]);
    LetterIsNotWhitespace(x[n - 1]);
    TrimKeepsPrefix(x, n);
    var w := Trim(x);
    LowerSlice(w, 0, n);
  }

  /** `p` is the first index at which `t` occurs in `s`. */
  predicate FirstOccurrence(s: string, t: string, p: int)
  {
    OccursAt(s, t, p) && forall j :: 0 <= j < p ==> !OccursAt(s, t, j)
  }

  /** `req` stands verbatim in `text` at `p`, ends in a non-whitespace
      character inside the 100-character window that starts there, and only
      whitespace follows it up to the end of that window. */
  predicate TrimmedWindowAt(text: string, req: string, p: int)
  {
    && OccursAt(text, req, p)
    && p + |req| <= WindowEnd(text, p)
    && 0 < |req| && !IsWhitespace(req[|req| - 1])
    && (forall k :: p + |req| <= k < WindowEnd(text, p) ==> IsWhitespace(text[k]))
  }

  /** `req` is the requirement the source cuts for `indicator`: the trimmed
      window at the first index where the indicator occurs in the lower-cased
      text. */
  ghost predicate IsRequirementFor(text: string, indicator: string, req: string)
  {
    exists p :: FirstOccurrence(Lower(text), indicator, p) && TrimmedWindowAt(text, req, p)
  }

  /** At most one string is the requirement for an indicator, so
      `IsRequirementFor` pins the window down. */
  lemma RequirementIsUnique(text: string, indicator: string, a: string, b: string)
    requires IsRequirementFor(text, indicator, a) && IsRequirementFor(text, indicator, b)
    ensures a == b
  {
    var p :| FirstOccurrence(Lower(text), indicator, p) && TrimmedWindowAt(text, a, p);
    var q :| FirstOccurrence(Lower(text), indicator, q) && TrimmedWindowAt(text, b, q);
    FirstOccurrenceIsUnique(Lower(text), indicator, p, q);
    TrimmedWindowIsUnique(text, a, b, p);
  }

  lemma FirstOccurrenceIsUnique(s: string, t: string, p: int, q: int)
    requires FirstOccurrence(s, t, p) && FirstOccurrence(s, t, q)
    ensures p == q
  {
  }

  lemma TrimmedWindowIsUnique(text: string, a: string, b: string, p: int)
    requires TrimmedWindowAt(text, a, p) && TrimmedWindowAt(text, b, p)
    ensures a == b
  {
    assert a[|a| - 1] == text[p + |a| - 1] && b[|b| - 1] == text[p + |b| - 1];
    assert |a| == |b|;
  }

  /** For an indicator that begins with a letter, the window cut by
      `RequirementWindow` is that requirement. */
  lemma WindowIsVerbatim(text: string, indicator: string)
    requires 0 < |indicator| && 'a' <= indicator[0] <= 'z'
    requires Contains(Lower(text), indicator)
    ensures IsRequirementFor(text, indicator, RequirementWindow(text, indicator))
  {
    var index := IndexOf(Lower(text), indicator);
    assert OccursAt(Lower(text), indicator, index);
    assert Lower(text)[index] == indicator[0];
    LetterIsNotWhitespace(text[index]);
    TrimmedStretch(text, index, WindowEnd(text, index));
    assert FirstOccurrence(Lower(text), indicator, index);
    assert TrimmedWindowAt(text, RequirementWindow(text, indicator), index);
  }

  /** A stretch of text that begins with a non-whitespace character, trimmed,
      stands verbatim at its start and is followed by whitespace only. */
  lemma TrimmedStretch(text: string, start: nat, stop: nat)
    requires start < stop <= |text| && !IsWhitespace(text[start])
    ensures var w := Trim(text[start..stop]);
      && OccursAt(text, w, start) && start + |w| <= stop
      && 0 < |w| && !IsWhitespace(w[|w| - 1])
      && forall k :: start + |w| <= k < stop ==> IsWhitespace(text[k])
  {
    var x := text[start..stop];
    TrimFromNonWhitespace(x);
    var w := Trim(x);
    assert text[start..start + |w|] == w;
    forall k | start + |w| <= k < stop
      ensures IsWhitespace(text[k])
    {
      assert text[k] == x[k - start];
    }
  }

  /** The requirements: at most six, each at most 100 characters, in
      indicator-table order, each beginning (case-insensitively) with its
      indicator. */
  lemma RequirementsShape(text: string)
    ensures var present := Present(RequirementIndicators, Lower(text));
      var r := Requirements(text);
      |r| == |present| <= 6
      && IsSubsequence(present, RequirementIndicators)
      && forall i :: 0 <= i < |r| ==> |r[i]| <= RequirementWindowLength && StartsWith(Lower(r[i]), present[i])
  {
    var present := Present(RequirementIndicators, Lower(text));
    var r := Requirements(text);
    IndicatorsHaveLetterEnds();
    forall i | 0 <= i < |r|
      ensures StartsWith(Lower(r[i]), present[i])
    {
      assert present[i] in present;
      WindowStartsWithIndicator(text, present[i]);
    }
  }

  /** Each requirement is the one the source cuts for the indicator at the
      same position: verbatim text from that indicator's first occurrence. */
  lemma RequirementsAreVerbatim(text: string)
    ensures var present := Present(RequirementIndicators, Lower(text));
      var r := Requirements(text);
      |r| == |present| && forall i :: 0 <= i < |r| ==> IsRequirementFor(text, present[i], r[i])
  {
    var present := Present(RequirementIndicators, Lower(text));
    var r := Requirements(text);
    IndicatorsHaveLetterEnds();
    forall i | 0 <= i < |r|
      ensures IsRequirementFor(text, present[i], r[i])
    {
      assert present[i] in present;
      WindowIsVerbatim(text, present[i]);
    }
  }

  /** `extractInformation`. Phone numbers and e-mail addresses are found by
      regular expressions that are not modelled: `phoneMatches` and
      `addressMatches` stand for `text.match(regex) || []`. */
  function ExtractInformation(email: RawEmail, phoneMatches: string -> seq<string>,
                              addressMatches: string -> seq<string>): (info: ExtractedInfo)
    ensures var text := CombinedText(email.subject, email.body);
      var contacts := info.contactDetails;
      && |phoneMatches(text)| <= |contacts|
      && contacts[..|phoneMatches(text)|] == phoneMatches(text)
      && IsSubsequence(contacts[|phoneMatches(text)|..], addressMatches(text))
      && (forall a :: multiset(contacts[|phoneMatches(text)|..])[a]
            == if a != email.sender then multiset(addressMatches(text))[a] else 0)
    ensures var text := CombinedText(email.subject, email.body);
      |info.sentimentIndicators| == DistinctHits(PositiveWords, text) + DistinctHits(NegativeWords, text) <= 15
    ensures var text := CombinedText(email.subject, email.body);
      info.metadata.wordCount == CountChar(text, ' ') + 1 >= 2
    ensures !info.metadata.hasAttachments
    ensures info.requirements == Requirements(CombinedText(email.subject, email.body))
  {
    var text := CombinedText(email.subject, email.body);
    var lower := Lower(text);
    var phones := phoneMatches(text);
    var contacts := phones + Keep(addressMatches(text), a => a != email.sender);
    assert contacts[..|phones|] == phones;
    assert contacts[|phones|..] == Keep(addressMatches(text), a => a != email.sender);
    KeepMultiset(addressMatches(text), a => a != email.sender);
    HitCounts(text);
    assert CountChar(text, ' ') >= 1 by {
      CountSpaceInCombined(email.subject, email.body);
    }
    ExtractedInfo(
      contacts,
      Requirements(text),
      Present(PositiveWords, lower) + Present(NegativeWords, lower),
      Metadata(|Split(text, ' ')|, false))
  }

  lemma {:induction false} CountSpaceInCombined(subject: string, body: string)
    ensures CountChar(CombinedText(subject, body), ' ') >= 1
  {
    if subject != [] {
      assert CombinedText(subject, body)[1..] == CombinedText(subject[1..], body);
      CountSpaceInCombined(subject[1..], body);
    }
  }

  /** The sentiment cues are the positive hits followed by the negative hits,
      and the sentiment label is decided by which half is longer. */
  lemma IndicatorsAgreeWithSentiment(email: RawEmail, phoneMatches: string -> seq<string>,
                                     addressMatches: string -> seq<string>)
    ensures var text := CombinedText(email.subject, email.body);
      var cues := ExtractInformation(email, phoneMatches, addressMatches).sentimentIndicators;
      var positives := Present(PositiveWords, Lower(text));
      var sentiment := AnalyzeSentiment(text);
      && cues == positives + Present(NegativeWords, Lower(text))
      && (sentiment == Negative <==> |cues| - |positives| > |positives|)
      && (sentiment == Positive <==> |positives| > |cues| - |positives|)
  {
    HitCounts(CombinedText(email.subject, email.body));
  }

  // ---------------------------------------------------------------------------
  // Reply template

  const GreetingNegative := "Thank you for reaching out, and I sincerely apologize for any inconvenience you've experienced. "
  const GreetingPositive := "Thank you for your message! I'm delighted to assist you. "
  const GreetingNeutral := "Thank you for contacting our support team. I'm here to help you. "
  const UrgencyNote := "I understand this is urgent, and I'm prioritizing your request. "
  const TopicAccess := "Regarding your login/access issue, I'll help you resolve this immediately. Please verify your email address and try resetting your password using the 'Forgot Password' link. "
  const TopicBilling := "I'll review your billing concern right away. Our billing team will investigate any discrepancies and ensure accurate charges. "
  const TopicTechnical := "For API integration questions, I'll connect you with our technical team who can provide detailed documentation and implementation guidance. "
  const TopicPricing := "I'd be happy to explain our pricing structure and help you find the plan that best fits your needs. "
  const TopicGeneral := "I've reviewed your request and will ensure you receive the appropriate assistance. "
  const EmpathyNote := "I truly appreciate your patience, and we're committed to making this right. "
  const SignOff := "I'll follow up within 24 hours with a detailed resolution. If you need immediate assistance, please don't hesitate to reach out.\n\nBest regards,\nCustomer Support Team"

  function Greeting(s: Sentiment): string
  {
    match s
    case Negative => GreetingNegative
    case Positive => GreetingPositive
    case Neutral => GreetingNeutral
  }

  /** The subject-driven sentence: login/access, billing/payment,
      integration/api, pricing, first match wins (note: a different order from
      `Categorize`). */
  function TopicSentence(subject: string): string
  {
    var s := Lower(subject);
    if Contains(s, "login") || Contains(s, "access") then TopicAccess
    else if Contains(s, "billing") || Contains(s, "payment") then TopicBilling
    else if Contains(s, "integration") || Contains(s, "api") then TopicTechnical
    else if Contains(s, "pricing") then TopicPricing
    else TopicGeneral
  }

  /** The sentences of the reply, in order. They depend on the sentiment, the
      priority and the subject only. */
  function ResponseParts(sentiment: Sentiment, priority: Priority, subject: string): (parts: seq<string>)
    ensures |parts| == 3 + (if priority == Urgent then 1 else 0) + (if sentiment == Negative then 1 else 0)
    ensures parts[|parts| - 2] == if sentiment == Negative then EmpathyNote else TopicSentence(subject)
    ensures parts[0] == Greeting(sentiment) && parts[|parts| - 1] == SignOff
    ensures parts[1] == if priority == Urgent then UrgencyNote else TopicSentence(subject)
    ensures UrgencyNote in parts <==> priority == Urgent
    ensures EmpathyNote in parts <==> sentiment == Negative
    ensures TopicSentence(subject) in parts
  {
    [Greeting(sentiment)]
    + (if priority == Urgent then [UrgencyNote] else [])
    + [TopicSentence(subject)]
    + (if sentiment == Negative then [EmpathyNote] else [])
    + [SignOff]
  }

  /** The concatenation of a list of sentences. */
  function Concat(parts: seq<string>): string
  {
    if parts == [] then "" else Concat(parts[..|parts| - 1]) + parts[|parts| - 1]
  }

  /** `generateAIResponse`: appends the chosen sentences to an initially empty
      reply. The reply starts with the greeting for the sentiment, ends with
      the sign-off, and carries the urgency sentence right after the greeting
      when the email is urgent. */
  method GenerateAIResponse(email: Email) returns (response: string)
    ensures response == Concat(ResponseParts(email.sentiment, email.priority, email.subject))
    ensures StartsWith(response, Greeting(email.sentiment))
    ensures |SignOff| <= |response| && response[|response| - |SignOff|..] == SignOff
    ensures email.priority == Urgent ==> OccursAt(response, UrgencyNote, |Greeting(email.sentiment)|)
  {
    ResponseShape(email.sentiment, email.priority, email.subject);
    response := "";
    var greeting;
    if email.sentiment == Negative {
      greeting := GreetingNegative;
    } else if email.sentiment == Positive {
      greeting := GreetingPositive;
    } else {
      greeting := GreetingNeutral;
    }
    ConcatSnoc([], greeting);
    response := response + greeting;
    ghost var sofar := [greeting];
    assert response == Concat(sofar);

    if email.priority == Urgent {
      ConcatSnoc(sofar, UrgencyNote);
      response, sofar := response + UrgencyNote, sofar + [UrgencyNote];
    }
    assert sofar == [greeting] + (if email.priority == Urgent then [UrgencyNote] else []);

    var topic := TopicSentence(email.subject);
    ConcatSnoc(sofar, topic);
    response, sofar := response + topic, sofar + [topic];

    ghost var beforeEmpathy := sofar;
    if email.sentiment == Negative {
      ConcatSnoc(sofar, EmpathyNote);
      response, sofar := response + EmpathyNote, sofar + [EmpathyNote];
    }
    assert sofar == beforeEmpathy + (if email.sentiment == Negative then [EmpathyNote] else []);

    ConcatSnoc(sofar, SignOff);
    response, sofar := response + SignOff, sofar + [SignOff];
    assert greeting == Greeting(email.sentiment);
    assert sofar == ResponseParts(email.sentiment, email.priority, email.subject);
  }

  /** Where the greeting, the urgency sentence and the sign-off sit in the reply. */
  lemma ResponseShape(sentiment: Sentiment, priority: Priority, subject: string)
    ensures var r := Concat(ResponseParts(sentiment, priority, subject));
      && StartsWith(r, Greeting(sentiment))
      && |SignOff| <= |r| && r[|r| - |SignOff|..] == SignOff
      && (priority == Urgent ==> OccursAt(r, UrgencyNote, |Greeting(sentiment)|))
  {
    ConcatShape(ResponseParts(sentiment, priority, subject));
  }

  /** The first sentence opens the concatenation, the second follows it, the
      last one closes it. */
  lemma ConcatShape(parts: seq<string>)
    requires |parts| >= 2
    ensures var r := Concat(parts);
      var last := parts[|parts| - 1];
      && StartsWith(r, parts[0])
      && OccursAt(r, parts[1], |parts[0]|)
      && |last| <= |r| && r[|r| - |last|..] == last
  {
    ConcatFront(parts);
    ConcatFront(parts[1..]);
    assert parts[1..][1..] == parts[2..];
    ConcatSnoc(parts[..|parts| - 1], parts[|parts| - 1]);
    assert parts[..|parts| - 1] + [parts[|parts| - 1]] == parts;
  }

  /** `Concat` appends its last sentence. */
  lemma ConcatSnoc(parts: seq<string>, x: string)
    ensures Concat(parts + [x]) == Concat(parts) + x
  {
    assert (parts + [x])[..|parts|] == parts;
  }

  /** `Concat` peels off its first sentence as well as its last one. */
  lemma {:induction false} ConcatFront(parts: seq<string>)
    requires parts != []
    ensures Concat(parts) == parts[0] + Concat(parts[1..])
  {
    if |parts| > 1 {
      ConcatFront(parts[..|parts| - 1]);
      assert parts[..|parts| - 1][1..] == parts[1..][..|parts| - 2];
      assert parts[..|parts| - 1][0] == parts[0];
    }
  }

  // ---------------------------------------------------------------------------
  // Building the processed record

  /** `processEmail`: copies the provenance fields, classifies the combined
      text, extracts, starts the record as pending, then attaches the reply
      generated from the record and marks it generated. `fallbackId` stands
      for the random id used when the row has an empty id. */
  function ProcessEmail(raw: RawEmail, phoneMatches: string -> seq<string>,
                        addressMatches: string -> seq<string>, fallbackId: string): (e: Email)
    ensures e.id == (if raw.id != "" then raw.id else fallbackId)
    ensures e.sender == raw.sender && e.subject == raw.subject && e.body == raw.body
    ensures e.sentDate == raw.sentDate
    ensures e.sentiment == AnalyzeSentiment(CombinedText(raw.subject, raw.body))
    ensures e.priority == DeterminePriority(CombinedText(raw.subject, raw.body))
    ensures e.category == Categorize(raw.subject)
    ensures e.extractedInfo == ExtractInformation(raw, phoneMatches, addressMatches)
    ensures e.status == Pending && e.responseGenerated
    ensures e.aiResponse == Some(Concat(ResponseParts(e.sentiment, e.priority, e.subject)))
  {
    var extractedInfo := ExtractInformation(raw, phoneMatches, addressMatches);
    var text := CombinedText(raw.subject, raw.body);
    var email := Email(
      if raw.id != "" then raw.id else fallbackId,
      raw.sender, raw.subject, raw.body, raw.sentDate,
      DeterminePriority(text), AnalyzeSentiment(text), Categorize(raw.subject),
      Pending, extractedInfo, None, false);
    email.(aiResponse := Some(Concat(ResponseParts(email.sentiment, email.priority, email.subject))),
           responseGenerated := true)
  }

  /** The reply attached by `processEmail` greets according to the
      sentiment read from the email's own text, flags urgency right after the
      greeting when that text holds an urgent keyword, and ends with the
      sign-off. */
  lemma ProcessedReplyShape(raw: RawEmail, phoneMatches: string -> seq<string>,
                            addressMatches: string -> seq<string>, fallbackId: string)
    ensures var e := ProcessEmail(raw, phoneMatches, addressMatches, fallbackId);
      var text := CombinedText(raw.subject, raw.body);
      var reply := e.aiResponse.value;
      && e.aiResponse.Some?
      && StartsWith(reply, Greeting(AnalyzeSentiment(text)))
      && |SignOff| <= |reply| && reply[|reply| - |SignOff|..] == SignOff
      && ((exists k :: k in UrgentKeywords && Contains(Lower(text), k))
          ==> OccursAt(reply, UrgencyNote, |Greeting(AnalyzeSentiment(text))|))
  {
    var e := ProcessEmail(raw, phoneMatches, addressMatches, fallbackId);
    ResponseShape(e.sentiment, e.priority, e.subject);
  }

  // ---------------------------------------------------------------------------
  // Worked cases

  /** A subject that mentions billing is filed under "Billing", whatever
      else it mentions (an API, a login, pricing, a refund). */
  lemma BillingBeatsTechnical(subject: string)
    requires Contains(Lower(subject), "billing")
    ensures Categorize(subject) == "Billing"
  {
  }

  /** The word "urgent" anywhere in the text, in any case, makes the email
      urgent. */
  lemma UrgentWordMakesUrgent(text: string)
    requires Contains(Lower(text), "urgent")
    ensures DeterminePriority(text) == Urgent
  {
    assert "urgent" in UrgentKeywords;
  }

  /** The reply and the category read the subject in different orders: a
      subject about billing access is filed as "Billing" while the reply
      talks about a login problem. */
  lemma TopicAndCategoryCanDisagree()
    ensures Categorize("billing access") == "Billing"
    ensures TopicSentence("billing access") == TopicAccess
  {
    assert OccursAt(Lower("billing access"), "billing", 0);
    assert OccursAt(Lower("billing access"), "access", 8);
  }
}
