/**
 Planning the answers of a form and guarding them (packages/browser/src/adapter.ts,
 packages/browser/src/answer-guard.ts). A numeric answer is represented by its text.
 */
module FieldPlan {
  import opened Outcome
  import opened Collections

  datatype Value = Text(text: string) | Flag(on: bool)

  datatype Kind = Line | Email | Phone | TextArea | Select | Radio | Checkbox | Date | File | Autocomplete | Unsupported

  datatype Choice = Choice(caption: string, value: string)

  datatype Field = Field(name: string, key: string, caption: string, kind: Kind, required: bool, maxLength: Option<nat>,
                         options: seq<Choice>)

  datatype Snapshot = Snapshot(jobId: string, fingerprint: string, fields: seq<Field>)

  /** `answer` is None for a deferred proposal. */
  datatype Answer = Answer(key: string, meaning: string, answer: Option<Value>, evidence: seq<string>)

  datatype Contribution = Contribution(text: string, evidence: seq<string>)

  datatype Artifact = Artifact(isCv: bool, filename: string, sha256: string)

  datatype Packet = Packet(
    jobId: string, fullName: string, email: string, phone: string, links: seq<string>, identityEvidence: seq<string>,
    opening: string, contributions: seq<Contribution>, answers: seq<Answer>, artifacts: seq<Artifact>
  )

  datatype Candidate = Candidate(value: Value, evidence: seq<string>)

  datatype Entry = Entry(name: string, key: string, expected: Value, evidence: seq<string>)

  datatype Plan = Plan(fingerprint: string, entries: seq<Entry>, unresolved: seq<string>)

  datatype PlanError = OtherJob | AnswerConflicts | ApprovalConflicts | InvalidPlan

  const PACKET_KEYS: set<string> := {"full_name", "email", "phone", "motivation", "portfolio", "cv"}
  const MAX_EVIDENCE: nat := 30

  // ---- What is known ----

  function CvOf(artifacts: seq<Artifact>): Option<Artifact> {
    if artifacts == [] then Option.None else if artifacts[0].isCv then Option.Some(artifacts[0])
      else CvOf(artifacts[1..])
  }

  function Joined(contributions: seq<Contribution>): string {
    if contributions == [] then ""
    else if |contributions| == 1 then contributions[0].text
    else contributions[0].text + " " + Joined(contributions[1..])
  }

  function ContributionEvidence(contributions: seq<Contribution>): seq<string> {
    if contributions == [] then [] else contributions[0].evidence + ContributionEvidence(contributions[1..])
  }

  function PacketBacked(p: Packet): (known: map<string, Candidate>)
    ensures known.Keys <= PACKET_KEYS
  {
    var cv := CvOf(p.artifacts);
    map["full_name" := Candidate(Text(p.fullName), p.identityEvidence),
        "email" := Candidate(Text(p.email), p.identityEvidence),
        "phone" := Candidate(Text(p.phone), p.identityEvidence),
        "motivation" := Candidate(Text(p.opening + " " + Joined(p.contributions)),
                                  ContributionEvidence(p.contributions)),
        "portfolio" := Candidate(Text(if p.links == [] then "" else p.links[0]), p.identityEvidence)]
    + (if cv.Some? then map["cv" := Candidate(Text(cv.value.filename), [cv.value.sha256])] else map[])
  }

  /** The last resolved answer for a key. */
  function LastAnswer(answers: seq<Answer>, key: string): (r: Option<Answer>)
    ensures r.Some? ==> r.value in answers && r.value.key == key && r.value.answer.Some?
  {
    if answers == [] then Option.None
    else
      var last := answers[|answers| - 1];
      if last.key == key && last.answer.Some? then Option.Some(last) else LastAnswer(answers[..|answers| - 1], key)
  }

  /** The first proposal for a key, resolved or not. */
  function FirstAnswer(answers: seq<Answer>, key: string): (r: Option<Answer>)
    ensures r.Some? ==> r.value in answers && r.value.key == key
    ensures r.None? ==> forall a :: a in answers ==> a.key != key
  {
    if answers == [] then Option.None else if answers[0].key == key then Option.Some(answers[0])
      else FirstAnswer(answers[1..], key)
  }

  function AnswerCandidate(a: Answer): Candidate
    requires a.answer.Some?
  {
    Candidate(a.answer.value, a.evidence)
  }

  /** What is known for a key: the packet's own value, else the owner's approval, else the last resolved answer. */
  ghost function Known(p: Packet, approved: map<string, Value>, key: string): Option<Candidate> {
    if key in PACKET_KEYS then (if key in PacketBacked(p) then Option.Some(PacketBacked(p)[key]) else Option.None)
    else if key in approved then Option.Some(Candidate(approved[key], []))
    else
      var last := LastAnswer(p.answers, key);
      if last.Some? then Option.Some(AnswerCandidate(last.value)) else Option.None
  }

  predicate ApprovalAgrees(p: Packet, approved: map<string, Value>, key: string)
    requires key in approved
  {
    key in PACKET_KEYS ==> key in PacketBacked(p) && PacketBacked(p)[key].value == approved[key]
  }

  /** Refuses approvals that contradict the packet. */
  method AssertPacketBackedValues(p: Packet, approved: map<string, Value>) returns (ok: bool)
    ensures ok <==> forall key :: key in approved ==> ApprovalAgrees(p, approved, key)
  {
    var known := PacketBacked(p);
    var left := approved.Keys;
    while left != {}
      invariant left <= approved.Keys
      invariant forall key :: key in approved && key !in left ==> ApprovalAgrees(p, approved, key)
      decreases left
    {
      var key :| key in left;
      if key in PACKET_KEYS && (key !in known || known[key].value != approved[key]) {
        return false;
      }
      left := left - {key};
    }
    ok := true;
  }

  /** `known` holds exactly what is known for every key. */
  ghost predicate Holds(known: map<string, Candidate>, p: Packet, approved: map<string, Value>) {
    forall key :: (if key in known then Option.Some(known[key]) else Option.None) == Known(p, approved, key)
  }

  /** `m` holds the packet's values and the last resolved answer for each other key. */
  ghost predicate Collected(m: map<string, Candidate>, p: Packet, answers: seq<Answer>) {
    && (forall key :: key in PACKET_KEYS ==>
          (key in m <==> key in PacketBacked(p)) && (key in m ==> m[key] == PacketBacked(p)[key]))
    && forall key :: key !in PACKET_KEYS ==>
         (key in m <==> LastAnswer(answers, key).Some?)
         && (key in m ==> m[key] == AnswerCandidate(LastAnswer(answers, key).value))
  }

  lemma CollectMore(m: map<string, Candidate>, p: Packet, answers: seq<Answer>, a: Answer)
    requires Collected(m, p, answers) && a.key !in PACKET_KEYS
    ensures Collected(if a.answer.Some? then m[a.key := AnswerCandidate(a)] else m, p, answers + [a])
  {
    assert (answers + [a])[..|answers|] == answers;
  }

  lemma CollectedHolds(m: map<string, Candidate>, p: Packet)
    ensures Collected(PacketBacked(p), p, [])
    ensures Collected(m, p, p.answers) ==> Holds(m, p, map[])
  {
    hide PacketBacked;
  }

  /** Collects what the answers say; None when one claims a packet key. */
  method CollectAnswers(p: Packet) returns (known: Option<map<string, Candidate>>)
    ensures known.Some? <==> forall a :: a in p.answers ==> a.key !in PACKET_KEYS
    ensures known.Some? ==> Holds(known.value, p, map[])
  {
    hide Collected, Holds, PacketBacked, LastAnswer;
    var m := PacketBacked(p);
    CollectedHolds(m, p);
    for i := 0 to |p.answers|
      invariant forall k :: 0 <= k < i ==> p.answers[k].key !in PACKET_KEYS
      invariant Collected(m, p, p.answers[..i])
    {
      var a := p.answers[i];
      if a.key in PACKET_KEYS {
        return Option.None;
      }
      CollectMore(m, p, p.answers[..i], a);
      assert p.answers[..i + 1] == p.answers[..i] + [a];
      if a.answer.Some? {
        m := m[a.key := AnswerCandidate(a)];
      }
    }
    assert p.answers[..|p.answers|] == p.answers;
    CollectedHolds(m, p);
    known := Option.Some(m);
  }

  /** Adds the approvals; None when one contradicts the packet. */
  method CollectApprovals(p: Packet, approved: map<string, Value>, answered: map<string, Candidate>)
    returns (known: Option<map<string, Candidate>>)
    requires Holds(answered, p, map[])
    ensures known.Some? <==> forall key :: key in approved ==> ApprovalAgrees(p, approved, key)
    ensures known.Some? ==> Holds(known.value, p, approved)
  {
    var m := answered;
    var left := approved.Keys;
    while left != {}
      invariant left <= approved.Keys
      invariant forall key :: key in approved && key !in left ==> ApprovalAgrees(p, approved, key)
      invariant forall key :: (if key in m then Option.Some(m[key]) else Option.None)
                              == Known(p, if key in approved && key !in left then approved else map[], key)
      decreases left
    {
      var key :| key in left;
      if key in PACKET_KEYS {
        assert Known(p, map[], key) == Known(p, approved, key);
        if key !in m || m[key].value != approved[key] {
          return Option.None;
        }
      } else {
        m := m[key := Candidate(approved[key], [])];
      }
      left := left - {key};
    }
    known := Option.Some(m);
  }

  // ---- What that means, key by key ----

  /** Contributions are joined by single blanks, and their evidence is put together in order. */
  lemma {:induction false} JoinedSplits(a: seq<Contribution>, b: seq<Contribution>, c: Contribution)
    ensures Joined([]) == "" && Joined([c]) == c.text
    ensures a != [] && b != [] ==> Joined(a + b) == Joined(a) + " " + Joined(b)
    ensures ContributionEvidence([]) == [] && ContributionEvidence([c]) == c.evidence
    ensures ContributionEvidence(a + b) == ContributionEvidence(a) + ContributionEvidence(b)
  {
    assert [c][1..] == [] && ContributionEvidence([]) == [];
    if a == [] {
      assert a + b == b;
    } else {
      assert (a + b)[1..] == a[1..] + b;
      JoinedSplits(a[1..], b, c);
      assert |a| == 1 ==> a[1..] + b == b;
    }
  }

  /** The first of the artifacts that is a CV. */
  ghost predicate FirstCv(artifacts: seq<Artifact>, i: nat) {
    i < |artifacts| && artifacts[i].isCv && forall j :: 0 <= j < i ==> !artifacts[j].isCv
  }

  lemma {:induction false} CvIsFirst(artifacts: seq<Artifact>)
    ensures CvOf(artifacts).None? ==> forall i: nat :: !FirstCv(artifacts, i)
    ensures CvOf(artifacts).Some? ==> exists i: nat :: FirstCv(artifacts, i) && CvOf(artifacts).value == artifacts[i]
  {
    if artifacts != [] {
      var rest := artifacts[1..];
      CvIsFirst(rest);
      if artifacts[0].isCv {
        assert FirstCv(artifacts, 0);
      } else {
        forall i: nat | FirstCv(artifacts, i)
          ensures FirstCv(rest, i - 1)
        {
        }
        if i: nat :| FirstCv(rest, i) && CvOf(rest).Some? && CvOf(rest).value == rest[i] {
          var j := i + 1;
          assert FirstCv(artifacts, j) && artifacts[j] == rest[i];
        }
      }
    }
  }

  /** Each packet key stands for its own piece of the packet. */
  lemma PacketValues(p: Packet, approved: map<string, Value>)
    ensures Known(p, approved, "full_name") == Option.Some(Candidate(Text(p.fullName), p.identityEvidence))
    ensures Known(p, approved, "email") == Option.Some(Candidate(Text(p.email), p.identityEvidence))
    ensures Known(p, approved, "phone") == Option.Some(Candidate(Text(p.phone), p.identityEvidence))
    ensures Known(p, approved, "portfolio")
            == Option.Some(Candidate(Text(if |p.links| > 0 then p.links[0] else ""), p.identityEvidence))
    ensures Known(p, approved, "motivation")
            == Option.Some(Candidate(Text(p.opening + " " + Joined(p.contributions)),
                                     ContributionEvidence(p.contributions)))
    ensures (exists i: nat :: FirstCv(p.artifacts, i)) <==> Known(p, approved, "cv").Some?
    ensures forall i: nat :: FirstCv(p.artifacts, i) ==>
              Known(p, approved, "cv") == Option.Some(Candidate(Text(p.artifacts[i].filename), [p.artifacts[i].sha256]))
  {
    CvIsFirst(p.artifacts);
  }

  /** An approval of a packet key agrees when it repeats the packet's own value. */
  lemma ApprovalAgreesExactly(p: Packet, approved: map<string, Value>, key: string)
    requires key in approved
    ensures ApprovalAgrees(p, approved, key) <==>
              (key in {"full_name", "email", "phone", "motivation", "portfolio", "cv"} ==>
               Known(p, approved, key).Some? && Known(p, approved, key).value.value == approved[key])
  {
    hide PacketBacked;
  }

  /** Answer `i` is the last resolved one for its key. */
  ghost predicate LastResolved(answers: seq<Answer>, key: string, i: nat) {
    && i < |answers| && answers[i].key == key && answers[i].answer.Some?
    && forall j :: i < j < |answers| ==> answers[j].key != key || answers[j].answer.None?
  }

  lemma {:induction false} LastAnswerIsLast(answers: seq<Answer>, key: string)
    ensures LastAnswer(answers, key).None? ==> forall i: nat :: !LastResolved(answers, key, i)
    ensures LastAnswer(answers, key).Some? ==>
              exists i: nat :: LastResolved(answers, key, i) && LastAnswer(answers, key).value == answers[i]
  {
    if answers != [] {
      var n: nat := |answers| - 1;
      var rest := answers[..n];
      LastAnswerIsLast(rest, key);
      if answers[n].key == key && answers[n].answer.Some? {
        assert LastResolved(answers, key, n);
      } else {
        forall i: nat | LastResolved(answers, key, i)
          ensures LastResolved(rest, key, i)
        {
        }
        if LastAnswer(rest, key).Some? {
          var i: nat :| LastResolved(rest, key, i) && LastAnswer(rest, key).value == rest[i];
          assert LastResolved(answers, key, i) && answers[i] == rest[i];
        }
      }
    }
  }

  /** Any other key stands for the owner's approval, without evidence, or else for its last resolved answer. */
  lemma OtherValues(p: Packet, approved: map<string, Value>, key: string)
    requires key !in {"full_name", "email", "phone", "motivation", "portfolio", "cv"}
    ensures key in approved ==> Known(p, approved, key) == Option.Some(Candidate(approved[key], []))
    ensures key !in approved ==> (Known(p, approved, key).Some? <==> exists i: nat :: LastResolved(p.answers, key, i))
    ensures key !in approved ==> forall i: nat :: LastResolved(p.answers, key, i) ==>
              Known(p, approved, key) == Option.Some(Candidate(p.answers[i].answer.value, p.answers[i].evidence))
  {
    LastAnswerIsLast(p.answers, key);
    forall i: nat, j: nat | LastResolved(p.answers, key, i) && LastResolved(p.answers, key, j)
      ensures i == j
    {
      assert !(i < j) && !(j < i);
    }
  }

  // ---- Fields ----

  predicate IsChoice(kind: Kind) {
    kind in {Select, Radio, Autocomplete}
  }

  function AsText(v: Value): string {
    match v case Text(t) => t case Flag(on) => if on then "true" else "false"
  }

  function Offered(options: seq<Choice>, wanted: string): (r: Option<Choice>)
    ensures r.Some? <==> exists o :: o in options && (o.value == wanted || o.caption == wanted)
    ensures r.Some? ==> r.value in options && (r.value.value == wanted || r.value.caption == wanted)
  {
    if options == [] then Option.None
    else if options[0].value == wanted || options[0].caption == wanted then
      assert options[0] in options;
      Option.Some(options[0])
    else Offered(options[1..], wanted)
  }

  /** A required field counts as unanswered by a blank text or an unchecked box. */
  predicate Empty(blank: string -> bool, f: Field, v: Value) {
    f.required && ((v.Text? && blank(v.text)) || (f.kind == Checkbox && v == Flag(false)))
  }

  /** The first proposal for the field, if any, was asked under the field's own label. */
  predicate AskedAs(p: Packet, f: Field) {
    var first := FirstAnswer(p.answers, f.key);
    first.None? || first.value.meaning == f.caption
  }

  predicate LongerThan(f: Field, v: Value) {
    f.maxLength.Some? && f.maxLength.value > 0 && |AsText(v)| > f.maxLength.value
  }

  /** The value a field of this kind takes for a candidate value: an offered one for a choice. */
  function ValueFor(f: Field, v: Value): Value {
    if IsChoice(f.kind) && Offered(f.options, AsText(v)).Some? then Text(Offered(f.options, AsText(v)).value.value)
      else v
  }

  /** The entry of a field, if what is known can fill it. */
  ghost function EntryOf(blank: string -> bool, p: Packet, approved: map<string, Value>, f: Field): Option<Entry> {
    var known := Known(p, approved, f.key);
    if known.None? || f.kind == Unsupported || !AskedAs(p, f) then Option.None
    else
      var v := known.value.value;
      if Empty(blank, f, v) || (f.kind == Checkbox && !v.Flag?)
        || (IsChoice(f.kind) && Offered(f.options, AsText(v)).None?)
         || LongerThan(f, ValueFor(f, v))
      then Option.None
      else Option.Some(Entry(f.name, f.key, ValueFor(f, v), known.value.evidence))
  }

  ghost function Entries(blank: string -> bool, p: Packet, approved: map<string, Value>,
                         fields: seq<Field>): seq<Entry> {
    if fields == [] then []
    else
      var e := EntryOf(blank, p, approved, fields[|fields| - 1]);
      Entries(blank, p, approved, fields[..|fields| - 1]) + (if e.Some? then [e.value] else [])
  }

  ghost function Unresolved(blank: string -> bool, p: Packet, approved: map<string, Value>,
                            fields: seq<Field>): seq<string> {
    if fields == [] then []
    else
      var f := fields[|fields| - 1];
      Unresolved(blank, p, approved, fields[..|fields| - 1])
      + (if f.required && EntryOf(blank, p, approved, f).None? then [f.key] else [])
  }

  ghost predicate Acceptable(s: Snapshot, p: Packet, approved: map<string, Value>) {
    && s.jobId == p.jobId
    && (forall a :: a in p.answers ==> a.key !in PACKET_KEYS)
    && (forall key :: key in approved ==> ApprovalAgrees(p, approved, key))
  }

  lemma NextField(blank: string -> bool, p: Packet, approved: map<string, Value>, fields: seq<Field>, i: nat)
    requires i < |fields|
    ensures var f := fields[i]; var e := EntryOf(blank, p, approved, f);
            && Entries(blank, p, approved, fields[..i + 1]) == Entries(blank, p, approved, fields[..i])
               + (if e.Some? then [e.value] else [])
            && Unresolved(blank, p, approved, fields[..i + 1])
               == Unresolved(blank, p, approved, fields[..i]) + (if f.required && e.None? then [f.key] else [])
  {
    assert fields[..i + 1][..i] == fields[..i];
  }

  /**
   Plans a form; fails for another job's packet, conflicting
   answers or approvals, or an entry with too much evidence.
   */
  method PlanFields(blank: string -> bool, s: Snapshot, p: Packet, approved: map<string, Value>)
    returns (r: Result<Plan, PlanError>)
    ensures r.Ok? <==> Acceptable(s, p, approved) && forall e :: e in Entries(blank, p, approved, s.fields) ==>
              |e.evidence| <= 30
    ensures r.Ok? ==> r.value == Plan(s.fingerprint, Entries(blank, p, approved, s.fields),
                                      Unresolved(blank, p, approved, s.fields))
  {
    if s.jobId != p.jobId {
      return Err(OtherJob);
    }
    var answered := CollectAnswers(p);
    if answered.None? {
      return Err(AnswerConflicts);
    }
    var collected := CollectApprovals(p, approved, answered.value);
    if collected.None? {
      return Err(ApprovalConflicts);
    }
    hide Known, PacketBacked, Empty, LongerThan, IsChoice, FirstAnswer, AsText;
    var known := collected.value;
    var entries: seq<Entry>, unresolved: seq<string> := [], [];
    for i := 0 to |s.fields|
      invariant entries == Entries(blank, p, approved, s.fields[..i])
                && unresolved == Unresolved(blank, p, approved, s.fields[..i])
    {
      var f := s.fields[i];
      NextField(blank, p, approved, s.fields, i);
      var entry := PlanField(blank, p, approved, known, f);
      if entry.Some? {
        entries := entries + [entry.value];
      } else if f.required {
        unresolved := unresolved + [f.key];
      }
    }
    assert s.fields[..|s.fields|] == s.fields;
    if exists e :: e in entries && |e.evidence| > MAX_EVIDENCE {
      return Err(InvalidPlan);
    }
    r := Ok(Plan(s.fingerprint, entries, unresolved));
  }

  method PlanField(blank: string -> bool, p: Packet, ghost approved: map<string, Value>, known: map<string, Candidate>,
                   f: Field)
    returns (entry: Option<Entry>)
    requires Holds(known, p, approved)
    ensures entry == EntryOf(blank, p, approved, f)
  {
    hide Known;
    var proposal := FirstAnswer(p.answers, f.key);
    if proposal.Some? && proposal.value.meaning != f.caption {
      return Option.None;
    }
    if f.key !in known || f.kind == Unsupported {
      return Option.None;
    }
    var expected := known[f.key].value;
    if f.required && ((expected.Text? && blank(expected.text)) || (f.kind == Checkbox && expected == Flag(false))) {
      return Option.None;
    }
    if f.kind == Checkbox && !expected.Flag? {
      return Option.None;
    }
    if IsChoice(f.kind) {
      var option := Offered(f.options, AsText(expected));
      if option.None? {
        return Option.None;
      }
      expected := Text(option.value.value);
    }
    if f.maxLength.Some? && f.maxLength.value > 0 && |AsText(expected)| > f.maxLength.value {
      return Option.None;
    }
    entry := Option.Some(Entry(f.name, f.key, expected, known[f.key].evidence));
  }

  // ---- What a plan is ----

  /** A value the form offers or allows in this field. */
  ghost predicate Legal(f: Field, v: Value) {
    && (IsChoice(f.kind) ==> exists o :: o in f.options && v == Text(o.value))
    && (f.kind == Checkbox ==> v.Flag?)
    && (f.maxLength.Some? && f.maxLength.value > 0 ==> |AsText(v)| <= f.maxLength.value)
    && f.kind != Unsupported
  }

  /** An entry fills its own field legally. */
  lemma EntriesAreLegal(blank: string -> bool, p: Packet, approved: map<string, Value>, f: Field)
    requires EntryOf(blank, p, approved, f).Some?
    ensures var e := EntryOf(blank, p, approved, f).value; e.name == f.name && e.key == f.key && Legal(f, e.expected)
  {
    hide Known, PacketBacked, FirstAnswer;
  }

  /** Proposal `i` is the first for the field's key. */
  ghost predicate FirstProposal(answers: seq<Answer>, key: string, i: nat) {
    i < |answers| && answers[i].key == key && forall j :: 0 <= j < i ==> answers[j].key != key
  }

  lemma {:induction false} FirstAnswerIsFirst(answers: seq<Answer>, key: string)
    ensures FirstAnswer(answers, key).None? ==> forall i: nat :: !FirstProposal(answers, key, i)
    ensures forall i: nat :: FirstProposal(answers, key, i) ==> FirstAnswer(answers, key) == Option.Some(answers[i])
    ensures FirstAnswer(answers, key).Some? ==> exists i: nat :: FirstProposal(answers, key, i)
  {
    if answers != [] {
      var rest := answers[1..];
      FirstAnswerIsFirst(rest, key);
      if answers[0].key == key {
        assert FirstProposal(answers, key, 0);
      } else {
        forall i: nat | FirstProposal(answers, key, i)
          ensures FirstProposal(rest, key, i - 1) && rest[i - 1] == answers[i]
        {
        }
        if i: nat :| FirstProposal(rest, key, i) {
          var j := i + 1;
          assert FirstProposal(answers, key, j);
        }
      }
    }
  }

  /** Option `i` is the first whose value or label is the text. */
  ghost predicate FirstOption(options: seq<Choice>, text: string, i: nat) {
    && i < |options| && (options[i].value == text || options[i].caption == text)
    && forall j :: 0 <= j < i ==> options[j].value != text && options[j].caption != text
  }

  lemma {:induction false} OfferedIsFirst(options: seq<Choice>, text: string)
    ensures Offered(options, text).Some? ==> exists i: nat :: FirstOption(options, text, i)
    ensures forall i: nat :: FirstOption(options, text, i) ==> Offered(options, text) == Option.Some(options[i])
  {
    if options != [] {
      var rest := options[1..];
      OfferedIsFirst(rest, text);
      if options[0].value == text || options[0].caption == text {
        assert FirstOption(options, text, 0);
      } else {
        forall i: nat | FirstOption(options, text, i)
          ensures FirstOption(rest, text, i - 1) && rest[i - 1] == options[i]
        {
        }
        if i: nat :| FirstOption(rest, text, i) {
          var j := i + 1;
          assert FirstOption(options, text, j);
        }
      }
    }
  }

  function Spelled(v: Value): string {
    match v case Text(t) => t case Flag(true) => "true" case Flag(false) => "false"
  }

  /** The value `v` for field `f`, when it can go in: for a choice the value of its first matching option. */
  ghost predicate Fits(f: Field, v: Value, expected: Value) {
    && (f.kind in {Select, Radio, Autocomplete} ==>
          exists i: nat :: FirstOption(f.options, Spelled(v), i) && expected == Text(f.options[i].value))
    && (f.kind !in {Select, Radio, Autocomplete} ==> expected == v)
    && (f.kind == Checkbox ==> v.Flag?)
    && (f.maxLength.None? || f.maxLength.value == 0 || |Spelled(expected)| <= f.maxLength.value)
  }

  /**
   A field gets an entry exactly when something is known for its key, the first proposal for the key, if any, asks
   what its label asks, the value does not leave a required field empty, and it fits. The entry holds that value
   with its evidence.
   */
  lemma FilledExactlyWhen(blank: string -> bool, p: Packet, approved: map<string, Value>, f: Field, e: Entry)
    ensures EntryOf(blank, p, approved, f) == Option.Some(e) <==>
              && Known(p, approved, f.key).Some? && f.kind != Unsupported
              && (forall i: nat :: FirstProposal(p.answers, f.key, i) ==> p.answers[i].meaning == f.caption)
              && var known := Known(p, approved, f.key).value;
                 && !(f.required && known.value.Text? && blank(known.value.text))
                 && !(f.required && f.kind == Checkbox && known.value == Flag(false))
                 && Fits(f, known.value, e.expected)
                 && e.name == f.name && e.key == f.key && e.evidence == known.evidence
  {
    hide Known;
    FirstAnswerIsFirst(p.answers, f.key);
    assert AskedAs(p, f) <==> forall i: nat :: FirstProposal(p.answers, f.key, i) ==> p.answers[i].meaning == f.caption;
    hide AskedAs, FirstAnswer, FirstProposal, Fits, ValueFor, LongerThan, IsChoice, Offered, AsText;
    if Known(p, approved, f.key).Some? {
      FitsExactly(f, Known(p, approved, f.key).value.value, e.expected);
    }
  }

  lemma FitsExactly(f: Field, v: Value, expected: Value)
    ensures Fits(f, v, expected) <==>
              && (f.kind == Checkbox ==> v.Flag?) && (IsChoice(f.kind) ==> Offered(f.options, AsText(v)).Some?)
              && !LongerThan(f, ValueFor(f, v)) && expected == ValueFor(f, v)
  {
    OfferedIsFirst(f.options, AsText(v));
    hide Offered;
  }

  ghost predicate Increasing(positions: seq<nat>, n: nat) {
    (forall k :: 0 <= k < |positions| ==> positions[k] < n) && forall j, k :: 0 <= j < k < |positions| ==>
        positions[j] < positions[k]
  }

  /**
   The fields of a form, split: `filled` are the positions of the entries, `open` those of the unresolved
   keys, both in form order. No field is in both, every required one is in one, and no optional one is open.
   */
  lemma {:induction false} FieldsArePartitioned(blank: string -> bool, p: Packet, approved: map<string, Value>,
                                                fields: seq<Field>)
    returns (filled: seq<nat>, open: seq<nat>)
    ensures Increasing(filled, |fields|) && |filled| == |Entries(blank, p, approved, fields)|
    ensures Increasing(open, |fields|) && |open| == |Unresolved(blank, p, approved, fields)|
    ensures forall k :: 0 <= k < |filled| ==>
              EntryOf(blank, p, approved, fields[filled[k]]) == Option.Some(Entries(blank, p, approved, fields)[k])
    ensures forall k :: 0 <= k < |open| ==>
              fields[open[k]].required && fields[open[k]].key == Unresolved(blank, p, approved, fields)[k]
    ensures forall i :: i in filled ==> i !in open
    ensures forall i :: 0 <= i < |fields| && fields[i].required ==> i in filled || i in open
  {
    hide EntryOf;
    filled, open := [], [];
    if fields != [] {
      var n := |fields| - 1;
      filled, open := FieldsArePartitioned(blank, p, approved, fields[..n]);
      if EntryOf(blank, p, approved, fields[n]).Some? {
        filled := filled + [n];
      } else if fields[n].required {
        open := open + [n];
      }
    }
  }

  /** A field a form can hold, as its schema bounds it. */
  predicate IsFormField(f: Field) {
    && 1 <= |f.name| <= 120 && 1 <= |f.key| <= 120 && IsLabel(f.caption)
    && (f.maxLength.Some? ==> f.maxLength.value > 0) && |f.options| <= 100
  }

  predicate IsLabel(s: string) {
    1 <= |s| <= 500
  }

  /** The answer a plan uses for `key` was given to the question `f` asks. */
  ghost predicate AnsweredAsAsked(p: Packet, key: string, f: Field) {
    LastAnswer(p.answers, key).Some? && LastAnswer(p.answers, key).value.meaning == f.caption
  }

  /**
   The proposals for `key` agree where it matters: the first, which
   is checked, and the last resolved one, which is used.
   */
  predicate MeaningsAgree(answers: seq<Answer>, key: string) {
    var first, last := FirstAnswer(answers, key), LastAnswer(answers, key);
    first.Some? && last.Some? && IsLabel(first.value.meaning) ==> last.value.meaning == first.value.meaning
  }

  /**
   The exact condition: whatever form asks for a key that only answers can fill, a filled field is answered
   as asked exactly when the first proposal for the key and its last resolved answer mean the same.
   */
  lemma AnsweredAsAskedExactly(blank: string -> bool, p: Packet, approved: map<string, Value>, key: string)
    requires 1 <= |key| <= 120 && key !in PACKET_KEYS && key !in approved
    ensures MeaningsAgree(p.answers, key) ==>
              forall f :: IsFormField(f) && f.key == key && EntryOf(blank, p, approved, f).Some? ==>
                  AnsweredAsAsked(p, key, f)
    ensures !MeaningsAgree(p.answers, key) ==>
              exists f :: IsFormField(f) && f.key == key && EntryOf(blank, p, approved, f).Some?
                    && !AnsweredAsAsked(p, key, f)
  {
    hide PacketBacked;
    var first, last := FirstAnswer(p.answers, key), LastAnswer(p.answers, key);
    if MeaningsAgree(p.answers, key) {
      forall f | IsFormField(f) && f.key == key && EntryOf(blank, p, approved, f).Some?
        ensures AnsweredAsAsked(p, key, f)
      {
        assert last.Some?;
        assert last.value in p.answers;
        assert first.Some? && first.value.meaning == f.caption;
      }
    } else {
      var f := Field("name", key, first.value.meaning, Line, false, Option.None, []);
      assert IsFormField(f) && EntryOf(blank, p, approved, f).Some?;
      assert !AnsweredAsAsked(p, key, f);
    }
  }

  ghost predicate UniqueKeys(answers: seq<Answer>) {
    forall i, j :: 0 <= i < j < |answers| ==> answers[i].key != answers[j].key
  }

  /** Unique keys are enough for every key. */
  lemma UniqueKeysAgree(answers: seq<Answer>, key: string)
    requires UniqueKeys(answers)
    ensures MeaningsAgree(answers, key)
  {
    var first, last := FirstAnswer(answers, key), LastAnswer(answers, key);
    if first.Some? && last.Some? {
      var i :| 0 <= i < |answers| && answers[i] == last.value;
      var j :| 0 <= j < |answers| && answers[j] == first.value;
      assert i == j;
    }
  }

  // ---- The evidence guard ----

  function AnswerEvidence(answers: seq<Answer>): set<string> {
    if answers == [] then {} else AnswerEvidence(answers[1..]) + Members(answers[0].evidence)
  }

  function Members(s: seq<string>): set<string> {
    set x | x in s
  }

  function Hashes(artifacts: seq<Artifact>): set<string> {
    set a | a in artifacts :: a.sha256
  }

  /** Every piece of evidence the packet holds. */
  function Permitted(p: Packet): set<string> {
    Members(p.identityEvidence) + Members(ContributionEvidence(p.contributions)) + AnswerEvidence(p.answers)
      + Hashes(p.artifacts)
  }

  lemma {:induction false} AnswerEvidenceIs(answers: seq<Answer>, id: string)
    ensures id in AnswerEvidence(answers) <==> exists a :: a in answers && id in a.evidence
  {
    if answers != [] {
      AnswerEvidenceIs(answers[1..], id);
      assert forall a :: a in answers <==> a == answers[0] || a in answers[1..];
    }
  }

  lemma {:induction false} ContributionEvidenceIs(contributions: seq<Contribution>, id: string)
    ensures id in ContributionEvidence(contributions) <==> exists c :: c in contributions && id in c.evidence
  {
    if contributions != [] {
      ContributionEvidenceIs(contributions[1..], id);
      assert forall c :: c in contributions <==> c == contributions[0] || c in contributions[1..];
    }
  }

  /** Evidence is permitted exactly when the identity, a contribution, an answer or an artifact of the packet has it. */
  lemma PermittedExactly(p: Packet, id: string)
    ensures id in Permitted(p) <==>
              || id in p.identityEvidence
              || (exists c :: c in p.contributions && id in c.evidence)
              || (exists a :: a in p.answers && id in a.evidence)
              || (exists a :: a in p.artifacts && a.sha256 == id)
  {
    AnswerEvidenceIs(p.answers, id);
    ContributionEvidenceIs(p.contributions, id);
  }

  predicate Evidenced(permitted: set<string>, e: Entry) {
    e.evidence != [] && forall id :: id in e.evidence ==> id in permitted
  }

  function Chosen(permitted: set<string>, entries: seq<Entry>, wanted: bool): (r: seq<Entry>)
    ensures forall e :: e in r <==> e in entries && Evidenced(permitted, e) == wanted
  {
    if entries == [] then []
    else
      assert forall e :: e in entries <==> e == entries[0] || e in entries[1..];
      (if Evidenced(permitted, entries[0]) == wanted then [entries[0]] else [])
        + Chosen(permitted, entries[1..], wanted)
  }

  function Keys(entries: seq<Entry>): (r: seq<string>)
    ensures |r| == |entries| && forall i :: 0 <= i < |r| ==> r[i] == entries[i].key
  {
    seq(|entries|, i requires 0 <= i < |entries| => entries[i].key)
  }

  /** The first occurrences, in order. */
  function Unique(s: seq<string>): (r: seq<string>)
    ensures forall x :: x in r <==> x in s
    ensures forall i, j :: 0 <= i < j < |r| ==> r[i] != r[j]
  {
    if s == [] then []
    else
      var rest, last := Unique(s[..|s| - 1]), s[|s| - 1];
      assert forall x :: x in s <==> x in s[..|s| - 1] || x == last;
      if last in rest then rest else rest + [last]
  }

  /** Keeps the entries the packet's evidence supports; the others become unresolved. */
  function Guarded(permitted: set<string>, plan: Plan): Plan {
    plan.(entries := Chosen(permitted, plan.entries, true),
          unresolved := Unique(plan.unresolved + Keys(Chosen(permitted, plan.entries, false))))
  }

  function AllKeys(plan: Plan): set<string> {
    Members(Keys(plan.entries)) + Members(plan.unresolved)
  }

  lemma {:induction false} SelectAll(permitted: set<string>, entries: seq<Entry>)
    requires forall e :: e in entries ==> Evidenced(permitted, e)
    ensures Chosen(permitted, entries, true) == entries && Chosen(permitted, entries, false) == []
  {
    if entries != [] {
      SelectAll(permitted, entries[1..]);
      assert entries == [entries[0]] + entries[1..];
    }
  }

  lemma {:induction false} UniqueAlready(s: seq<string>)
    requires forall i, j :: 0 <= i < j < |s| ==> s[i] != s[j]
    ensures Unique(s) == s
  {
    if s != [] {
      UniqueAlready(s[..|s| - 1]);
    }
  }

  /** Guarding a guarded plan changes nothing. */
  lemma GuardIsIdempotent(permitted: set<string>, plan: Plan)
    ensures Guarded(permitted, Guarded(permitted, plan)) == Guarded(permitted, plan)
  {
    hide Evidenced;
    var once := Guarded(permitted, plan);
    SelectAll(permitted, once.entries);
    assert once.unresolved + Keys([]) == once.unresolved;
    UniqueAlready(once.unresolved);
  }

  /** No question is lost: every key of the plan is still answered or unresolved. */
  lemma GuardConservesKeys(permitted: set<string>, plan: Plan)
    ensures AllKeys(Guarded(permitted, plan)) == AllKeys(plan)
  {
    hide Evidenced, Chosen, Unique;
    forall key
      ensures key in AllKeys(Guarded(permitted, plan)) <==> key in AllKeys(plan)
    {
      var kept, dropped := Chosen(permitted, plan.entries, true), Chosen(permitted, plan.entries, false);
      KeyOf(plan.entries, key);
      KeyOf(kept, key);
      KeyOf(dropped, key);
    }
  }

  lemma KeyOf(entries: seq<Entry>, key: string)
    ensures key in Keys(entries) <==> exists e :: e in entries && e.key == key
  {
    if key in Keys(entries) {
      var i :| 0 <= i < |entries| && Keys(entries)[i] == key;
      assert entries[i] in entries;
    }
    if e :| e in entries && e.key == key {
      var i :| 0 <= i < |entries| && entries[i] == e;
      assert Keys(entries)[i] == key;
    }
  }

  /** What filling compares: everything of the entries but their evidence. */
  function Values(entries: seq<Entry>): (r: seq<(string, string, Value)>)
    ensures |r| == |entries| && forall i :: 0 <= i < |r| ==>
              r[i] == (entries[i].name, entries[i].key, entries[i].expected)
  {
    seq(|entries|, i requires 0 <= i < |entries| => (entries[i].name, entries[i].key, entries[i].expected))
  }

  /** The guard's own answer, unless it leaves something open or changes a value. */
  function AssertGuarded(guard: Plan -> Plan, plan: Plan): Option<Plan> {
    var checked := guard(plan);
    if checked.unresolved != [] || checked.fingerprint != plan.fingerprint
      || Values(checked.entries) != Values(plan.entries)
    then Option.None else Option.Some(checked)
  }

  /**
   Under the evidence guard, a plan passes exactly when nothing is
   unresolved and the packet supports every entry; it passes unchanged.
   */
  lemma GuardedPlanPasses(permitted: set<string>, plan: Plan)
    ensures var r := AssertGuarded(x => Guarded(permitted, x), plan);
            && (r.Some? <==> plan.unresolved == [] && forall e :: e in plan.entries ==> Evidenced(permitted, e))
            && (r.Some? ==> r.value == plan)
  {
    hide Evidenced, Guarded;
    var checked := Guarded(permitted, plan);
    if plan.unresolved == [] && forall e :: e in plan.entries ==> Evidenced(permitted, e) {
      NothingToGuard(permitted, plan);
    } else {
      SomethingStaysOpen(permitted, plan);
    }
  }

  lemma NothingToGuard(permitted: set<string>, plan: Plan)
    requires plan.unresolved == [] && forall e :: e in plan.entries ==> Evidenced(permitted, e)
    ensures Guarded(permitted, plan) == plan
  {
    hide Evidenced;
    SelectAll(permitted, plan.entries);
    assert plan.unresolved + Keys([]) == [];
  }

  lemma SomethingStaysOpen(permitted: set<string>, plan: Plan)
    requires plan.unresolved != [] || exists e :: e in plan.entries && !Evidenced(permitted, e)
    ensures Guarded(permitted, plan).unresolved != []
  {
    hide Evidenced;
    var dropped := Chosen(permitted, plan.entries, false);
    if plan.unresolved != [] {
      assert plan.unresolved[0] in plan.unresolved + Keys(dropped);
    } else {
      var e :| e in plan.entries && !Evidenced(permitted, e);
      KeyOf(dropped, e.key);
      assert e.key in plan.unresolved + Keys(dropped);
    }
  }

  /** An owner's approval alone never passes the evidence guard. */
  lemma ApprovalAloneIsNotEvidence(blank: string -> bool, s: Snapshot, p: Packet, approved: map<string, Value>, i: nat)
    requires i < |s.fields| && s.fields[i].key in approved && s.fields[i].key !in PACKET_KEYS
    requires EntryOf(blank, p, approved, s.fields[i]).Some?
    ensures AssertGuarded(x => Guarded(Permitted(p), x),
                          Plan(s.fingerprint, Entries(blank, p, approved, s.fields),
                               Unresolved(blank, p, approved, s.fields))).None?
  {
    var plan := Plan(s.fingerprint, Entries(blank, p, approved, s.fields), Unresolved(blank, p, approved, s.fields));
    assert EntryOf(blank, p, approved, s.fields[i]).value.evidence == [];
    hide EntryOf, Permitted, PacketBacked;
    EntryIsPlanned(blank, p, approved, s.fields, i);
    GuardedPlanPasses(Permitted(p), plan);
  }

  lemma {:induction false} EntryIsPlanned(blank: string -> bool, p: Packet, approved: map<string, Value>,
                                          fields: seq<Field>, i: nat)
    requires i < |fields| && EntryOf(blank, p, approved, fields[i]).Some?
    ensures EntryOf(blank, p, approved, fields[i]).value in Entries(blank, p, approved, fields)
  {
    hide EntryOf;
    if i < |fields| - 1 {
      EntryIsPlanned(blank, p, approved, fields[..|fields| - 1], i);
    }
  }
}
