/** The Redis key space: name validation, the separator-joined key builder and every key
    family built from it. The main result is that a rendered key names exactly one structure. */
module Keys {
  import opened Text

  const SEP: char := ':'
  const PREFIX: seq<string> := ["redis-smq", "10"]

  // ---------------------------------------------------------------- names

  predicate IsLetter(c: char) { 'a' <= c <= 'z' }

  predicate IsValidKeyChar(c: char) {
    IsLetter(c) || IsDigit(c) || c == '-' || c == '_' || c == '.'
  }

  predicate ValidName(name: string) {
    && name != ""
    && IsLetter(name[0])
    && forall i :: 1 <= i < |name| ==> IsValidKeyChar(name[i])
  }

  /** Lowercasing of one character. Besides the ASCII letters just two characters have an ASCII lowercase:
      the dotted capital I and the Kelvin sign. What the others become is not ASCII, so no name holds it,
      and they are left as they are. */
  function LowerChar(c: char): char {
    if 'A' <= c <= 'Z' then (c as int - 'A' as int + 'a' as int) as char
    else if c == '\U{130}' then 'i'
    else if c == '\U{212A}' then 'k'
    else c
  }

  function ToLower(s: string): string {
    seq(|s|, i requires 0 <= i < |s| => LowerChar(s[i]))
  }

  /** Accepts exactly the names that are valid once lowercased, returning that form. */
  method ValidateKey(key: string) returns (r: Option<string>)
    ensures r.Some? <==> ValidName(ToLower(key))
    ensures r.Some? ==> r.value == ToLower(key)
  {
    if key == "" {
      return None;
    }
    var lowered := ToLower(key);
    if !IsLetter(lowered[0]) {
      return None;
    }
    for i := 1 to |lowered|
      invariant forall j :: 1 <= j < i ==> IsValidKeyChar(lowered[j])
    {
      if !IsValidKeyChar(lowered[i]) {
        return None;
      }
    }
    return Some(lowered);
  }

  /** A letter of either case, the two foreign capitals with an ASCII lowercase included. */
  predicate AnyCaseLetter(c: char) { 'a' <= c <= 'z' || 'A' <= c <= 'Z' || c == '\U{130}' || c == '\U{212A}' }

  /** The accepted keys as they are given: a letter of either case first, then such letters, digits, dashes,
      underscores and dots. */
  lemma AcceptedIff(key: string)
    ensures ValidName(ToLower(key)) <==>
      && key != "" && AnyCaseLetter(key[0])
      && forall i :: 0 <= i < |key| ==>
           AnyCaseLetter(key[i]) || '0' <= key[i] <= '9' || key[i] == '-' || key[i] == '_' || key[i] == '.'
  {
    assert forall i :: 0 <= i < |key| ==> ToLower(key)[i] == LowerChar(key[i]);
    if ValidName(ToLower(key)) {
      assert forall i :: 0 <= i < |key| ==> IsValidKeyChar(ToLower(key)[i]);
    }
  }

  /** What is returned for one: the same, with every capital replaced by the letter 32 places on. */
  lemma LoweredAt(key: string, i: nat)
    requires i < |key|
    ensures |ToLower(key)| == |key|
    ensures 'A' <= key[i] <= 'Z' ==> ToLower(key)[i] as int == key[i] as int + 32
    ensures 'a' <= key[i] <= 'z' || '0' <= key[i] <= '9' || key[i] in "-_." ==> ToLower(key)[i] == key[i]
  {
  }

  /** A validated name validates to itself, and cannot disturb a separator. */
  lemma ValidNameStable(name: string)
    requires ValidName(name)
    ensures ToLower(name) == name
    ensures SEP !in name && '@' !in name
  {
    assert forall i :: 0 <= i < |name| ==> IsValidKeyChar(name[i]);
    assert forall i :: 0 <= i < |name| ==> LowerChar(name[i]) == name[i];
  }

  // ---------------------------------------------------------------- the key builder

  function KeyText(parts: seq<string>): string {
    Join(PREFIX + parts, SEP)
  }

  lemma {:induction false} JoinSnoc(parts: seq<string>, last: string)
    requires |parts| >= 1
    ensures Join(parts + [last], SEP) == Join(parts, SEP) + [SEP] + last
  {
    var all := parts + [last];
    if |parts| > 1 {
      assert all[1..] == parts[1..] + [last];
      JoinSnoc(parts[1..], last);
      calc {
        Join(all, SEP);
        parts[0] + [SEP] + (Join(parts[1..], SEP) + [SEP] + last);
        (parts[0] + [SEP] + Join(parts[1..], SEP)) + [SEP] + last;
      }
    } else {
      assert all[1..] == [last];
    }
  }

  /** The builder loop: the prefix, then each part behind a separator. */
  method Key(parts: seq<string>) returns (s: string)
    ensures s == KeyText(parts)
  {
    s := "redis-smq:10";
    assert PREFIX[1..] == ["10"];
    assert PREFIX + parts[..0] == PREFIX;
    for i := 0 to |parts|
      invariant s == Join(PREFIX + parts[..i], SEP)
    {
      s := s + [SEP];
      s := s + parts[i];
      JoinSnoc(PREFIX + parts[..i], parts[i]);
      assert PREFIX + parts[..i + 1] == (PREFIX + parts[..i]) + [parts[i]];
    }
    assert parts[..|parts|] == parts;
  }

  // ---------------------------------------------------------------- key families

  datatype QueuePart =
    | Properties | Published | Pending | Priority | DeadLetter | Acknowledged | Scheduled | Delayed
    | Requeued | Consumers | ConsumerGroups | StateHistory | ExchangeBindings | ProcessingQueues
    | WorkersLock | RateLimit

  datatype GroupPart = GroupPending | GroupPriority | GroupMembers

  datatype SystemPart =
    | Config | AllQueues | AllExchanges | AllNamespaces | PurgeJobs

  datatype RedisKey =
    | ExchangeKey(ns: string, ex: string)
    | ExchangeProps(ns: string, ex: string)
    | RoutingKeys(ns: string, ex: string)
    | RoutingKeyQueues(ns: string, ex: string, rk: string)
    | BindingPatterns(ns: string, ex: string)
    | PatternQueues(ns: string, ex: string, rk: string)
    | FanoutQueues(ns: string, ex: string)
    | NamespaceQueues(ns: string)
    | NamespaceExchanges(ns: string)
    | QueueKey(ns: string, queue: string, part: QueuePart)
    | GroupKey(ns: string, queue: string, group: string, groupPart: GroupPart)
    | ConsumerProcessing(ns: string, queue: string, consumer: string)
    | SystemKey(system: SystemPart)
    | PendingPurgeJobs
    | ActivePurgeJobs
    | JobWorker(id: string)
    | WorkerHeartbeat(id: string)
    | ConsumerQueues(id: string)
    | ConsumerHeartbeat(id: string)
    | Message(id: string)
    | MessageHistory(id: string)

  function QueueTag(part: QueuePart): string {
    match part
    case Properties => "prop"
    case Published => "pub"
    case Pending => "pend"
    case Priority => "prio"
    case DeadLetter => "dl"
    case Acknowledged => "ack"
    case Scheduled => "sched"
    case Delayed => "dly"
    case Requeued => "req"
    case Consumers => "cons"
    case ConsumerGroups => "cgp"
    case StateHistory => "sh"
    case ExchangeBindings => "bind"
    case ProcessingQueues => "proc-q"
    case WorkersLock => "wlock"
    case RateLimit => "rate"
  }

  function GroupTag(part: GroupPart): string {
    match part
    case GroupPending => "pend"
    case GroupPriority => "prio"
    case GroupMembers => "cons"
  }

  function SystemTag(part: SystemPart): string {
    match part
    case Config => "cfg"
    case AllQueues => "q"
    case AllExchanges => "exs"
    case AllNamespaces => "ns"
    case PurgeJobs => "pg-jobs"
  }

  /** The argument list each family hands to the key builder. */
  function Parts(k: RedisKey): seq<string> {
    match k
    case ExchangeKey(ns, ex) => ["ns", ns, "exs", ex]
    case ExchangeProps(ns, ex) => ["ns", ns, "exs", ex, "prop"]
    case RoutingKeys(ns, ex) => ["ns", ns, "exs", ex, "rk"]
    case RoutingKeyQueues(ns, ex, rk) => ["ns", ns, "exs", ex, "rk", rk, "q"]
    case BindingPatterns(ns, ex) => ["ns", ns, "exs", ex, "pat"]
    case PatternQueues(ns, ex, pat) => ["ns", ns, "exs", ex, "pat", pat, "q"]
    case FanoutQueues(ns, ex) => ["ns", ns, "exs", ex, "q"]
    case NamespaceQueues(ns) => ["ns", ns, "q"]
    case NamespaceExchanges(ns) => ["ns", ns, "exs"]
    case QueueKey(ns, q, part) => ["ns", ns, "q", q, QueueTag(part)]
    case GroupKey(ns, q, g, part) => ["ns", ns, "q", q, "cgp", g, GroupTag(part)]
    case ConsumerProcessing(ns, q, c) => ["ns", ns, "q", q, "cons", c, "proc"]
    case SystemKey(part) => ["main", SystemTag(part)]
    case PendingPurgeJobs => ["main", "pg-jobs", "pend"]
    case ActivePurgeJobs => ["main", "pg-jobs", "proc"]
    case JobWorker(id) => ["main", "jobs", id, "wrk"]
    case WorkerHeartbeat(id) => ["main", "wrk", id, "hb"]
    case ConsumerQueues(id) => ["main", "cons", id, "q"]
    case ConsumerHeartbeat(id) => ["main", "cons", id, "hb"]
    case Message(id) => ["main", "msg", id]
    case MessageHistory(id) => ["main", "msg", id, "uh"]
  }

  function Render(k: RedisKey): string { KeyText(Parts(k)) }

  /** Names are validated when params are created; routing keys, patterns and ids may be any text. */
  predicate WellNamed(k: RedisKey) {
    match k
    case ExchangeKey(ns, ex) => ValidName(ns) && ValidName(ex)
    case ExchangeProps(ns, ex) => ValidName(ns) && ValidName(ex)
    case RoutingKeys(ns, ex) => ValidName(ns) && ValidName(ex)
    case RoutingKeyQueues(ns, ex, _) => ValidName(ns) && ValidName(ex)
    case BindingPatterns(ns, ex) => ValidName(ns) && ValidName(ex)
    case PatternQueues(ns, ex, _) => ValidName(ns) && ValidName(ex)
    case FanoutQueues(ns, ex) => ValidName(ns) && ValidName(ex)
    case NamespaceQueues(ns) => ValidName(ns)
    case NamespaceExchanges(ns) => ValidName(ns)
    case QueueKey(ns, q, _) => ValidName(ns) && ValidName(q)
    case GroupKey(ns, q, _, _) => ValidName(ns) && ValidName(q)
    case ConsumerProcessing(ns, q, _) => ValidName(ns) && ValidName(q)
    case _ => true
  }

  /** Which part of the argument list is free text, if any: the routing key, the pattern or the id. */
  function TextAt(k: RedisKey): nat {
    match k
    case RoutingKeyQueues(_, _, _) => 5
    case PatternQueues(_, _, _) => 5
    case GroupKey(_, _, _, _) => 5
    case ConsumerProcessing(_, _, _) => 5
    case JobWorker(_) => 2
    case WorkerHeartbeat(_) => 2
    case ConsumerQueues(_) => 2
    case ConsumerHeartbeat(_) => 2
    case Message(_) => 2
    case MessageHistory(_) => 2
    case _ => |Parts(k)|
  }

  // ---------------------------------------------------------------- reading a key back

  function QueuePartOf(tag: string): Option<QueuePart> {
    match tag
    case "prop" => Some(Properties)
    case "pub" => Some(Published)
    case "pend" => Some(Pending)
    case "prio" => Some(Priority)
    case "dl" => Some(DeadLetter)
    case "ack" => Some(Acknowledged)
    case "sched" => Some(Scheduled)
    case "dly" => Some(Delayed)
    case "req" => Some(Requeued)
    case "cons" => Some(Consumers)
    case "cgp" => Some(ConsumerGroups)
    case "sh" => Some(StateHistory)
    case "bind" => Some(ExchangeBindings)
    case "proc-q" => Some(ProcessingQueues)
    case "wlock" => Some(WorkersLock)
    case "rate" => Some(RateLimit)
    case _ => None
  }

  function GroupPartOf(tag: string): Option<GroupPart> {
    match tag
    case "pend" => Some(GroupPending)
    case "prio" => Some(GroupPriority)
    case "cons" => Some(GroupMembers)
    case _ => None
  }

  function SystemPartOf(tag: string): Option<SystemPart> {
    match tag
    case "cfg" => Some(Config)
    case "q" => Some(AllQueues)
    case "exs" => Some(AllExchanges)
    case "ns" => Some(AllNamespaces)
    case "pg-jobs" => Some(PurgeJobs)
    case _ => None
  }

  function ExchangeOf(ns: string, ex: string, t: seq<string>): Option<RedisKey> {
    if |t| == 0 then Some(ExchangeKey(ns, ex))
    else if |t| >= 3 then
      var middle := Join(t[1..|t| - 1], SEP);
      if t[0] == "rk" then Some(RoutingKeyQueues(ns, ex, middle))
      else if t[0] == "pat" then Some(PatternQueues(ns, ex, middle))
      else None
    else if t == ["prop"] then Some(ExchangeProps(ns, ex))
    else if t == ["rk"] then Some(RoutingKeys(ns, ex))
    else if t == ["pat"] then Some(BindingPatterns(ns, ex))
    else if t == ["q"] then Some(FanoutQueues(ns, ex))
    else None
  }

  function QueueOf(ns: string, q: string, t: seq<string>): Option<RedisKey> {
    if |t| == 1 && QueuePartOf(t[0]).Some? then Some(QueueKey(ns, q, QueuePartOf(t[0]).value))
    else if |t| >= 3 then
      var middle, last := Join(t[1..|t| - 1], SEP), t[|t| - 1];
      if t[0] == "cgp" && GroupPartOf(last).Some? then Some(GroupKey(ns, q, middle, GroupPartOf(last).value))
      else if t[0] == "cons" then Some(ConsumerProcessing(ns, q, middle))
      else None
    else None
  }

  /** A message or a history, by the pieces behind the message tag. */
  function MessageOf(p: seq<string>): RedisKey {
    if |p| >= 2 && p[|p| - 1] == "uh" then MessageHistory(Join(p[..|p| - 1], SEP)) else Message(Join(p, SEP))
  }

  /** A structure with an id between two tags. */
  function SystemText(tag: string, middle: string, last: string): Option<RedisKey> {
    if tag == "jobs" then Some(JobWorker(middle))
    else if tag == "wrk" then Some(WorkerHeartbeat(middle))
    else if tag == "cons" && last == "q" then Some(ConsumerQueues(middle))
    else if tag == "cons" then Some(ConsumerHeartbeat(middle))
    else None
  }

  function SystemOf(t: seq<string>): Option<RedisKey> {
    if |t| == 0 then None
    else if t[0] == "msg" then Some(MessageOf(t[1..]))
    else if |t| >= 3 then SystemText(t[0], Join(t[1..|t| - 1], SEP), t[|t| - 1])
    else if |t| == 1 then if SystemPartOf(t[0]).Some? then Some(SystemKey(SystemPartOf(t[0]).value)) else None
    else if t[0] == "pg-jobs" then Some(if t[1] == "pend" then PendingPurgeJobs else ActivePurgeJobs)
    else None
  }

  /** The structure a token list belongs to; of a message and a history with the same tokens, the history. */
  function Identify(t: seq<string>): Option<RedisKey> {
    if |t| >= 2 && t[0] == "main" then SystemOf(t[1..])
    else if |t| >= 4 && t[0] == "ns" && t[2] == "exs" then ExchangeOf(t[1], t[3], t[4..])
    else if |t| >= 4 && t[0] == "ns" && t[2] == "q" then QueueOf(t[1], t[3], t[4..])
    else if |t| == 3 && t[0] == "ns" && t[2] == "q" then Some(NamespaceQueues(t[1]))
    else if |t| == 3 && t[0] == "ns" && t[2] == "exs" then Some(NamespaceExchanges(t[1]))
    else None
  }

  /** `Parts` with any free text cut at its own separators. */
  function Tokens(k: RedisKey): seq<string> {
    var parts, i := Parts(k), TextAt(k);
    if i < |parts| then parts[..i] + Split(parts[i], SEP) + parts[i + 1..] else parts
  }

  // ---------------------------------------------------------------- message ids

  const HISTORY_TAIL: string := ":uh"

  predicate EndsInTail(id: string) { |id| >= 3 && id[|id| - 3..] == HISTORY_TAIL }

  /** A message whose id ends like a history key is that history as far as its key is concerned. */
  function Canonical(k: RedisKey): RedisKey {
    if k.Message? && EndsInTail(k.id) then MessageHistory(k.id[..|k.id| - 3]) else k
  }

  lemma TailSplits(front: string)
    ensures Split(front + HISTORY_TAIL, SEP) == Split(front, SEP) + ["uh"]
  {
    hide Split;
    SplitConcat(front, "uh", SEP);
    SplitWhole("uh", SEP);
    assert front + HISTORY_TAIL == front + [SEP] + "uh";
  }

  lemma TailJoins(front: seq<string>)
    requires |front| >= 1
    ensures Join(front + ["uh"], SEP) == Join(front, SEP) + HISTORY_TAIL
  {
    hide Join;
    JoinSnoc(front, "uh");
    assert Join(front, SEP) + [SEP] + "uh" == Join(front, SEP) + HISTORY_TAIL;
  }

  lemma TailEnds(front: string)
    ensures EndsInTail(front + HISTORY_TAIL) && (front + HISTORY_TAIL)[..|front|] == front
  {
  }

  /** The id ends in the tail exactly when its last piece is the history tag and there is one before. */
  lemma TailPiece(id: string)
    ensures var p := Split(id, SEP);
      && (EndsInTail(id) <==> |p| >= 2 && p[|p| - 1] == "uh")
      && (EndsInTail(id) ==> Join(p[..|p| - 1], SEP) == id[..|id| - 3])
  {
    hide Split, Join;
    var p := Split(id, SEP);
    if EndsInTail(id) {
      var front := id[..|id| - 3];
      assert id == front + HISTORY_TAIL;
      TailSplits(front);
      assert p[..|p| - 1] == Split(front, SEP);
    }
    if |p| >= 2 && p[|p| - 1] == "uh" {
      hide EndsInTail;
      var front := p[..|p| - 1];
      assert p == front + ["uh"];
      TailJoins(front);
      TailEnds(Join(front, SEP));
    }
  }

  lemma TagsInvert(q: QueuePart, g: GroupPart, s: SystemPart)
    ensures QueuePartOf(QueueTag(q)) == Some(q)
    ensures GroupPartOf(GroupTag(g)) == Some(g)
    ensures SystemPartOf(SystemTag(s)) == Some(s)
  {
  }

  /** Looking behind the fixed parts: one tag, the pieces of the text, and the closing tag if any. */
  lemma TextPieces(parts: seq<string>, i: nat, pieces: seq<string>, from: nat)
    requires 0 < i < |parts| && from == i - 1 && |pieces| >= 1
    ensures var t := (parts[..i] + pieces + parts[i + 1..])[from..];
      && |t| == 1 + |pieces| + |parts| - i - 1
      && t[0] == parts[i - 1]
      && t[1..1 + |pieces|] == pieces
      && t[1 + |pieces|..] == parts[i + 1..]
      && (forall j :: 0 <= j < from ==> (parts[..i] + pieces + parts[i + 1..])[j] == parts[j])
  {
  }

  lemma IdentifyExchange(k: RedisKey)
    requires k.ExchangeKey? || k.ExchangeProps? || k.RoutingKeys? || k.RoutingKeyQueues?
          || k.BindingPatterns? || k.PatternQueues? || k.FanoutQueues?
    ensures Identify(Tokens(k)) == Some(k)
  {
    hide Split, Join;
    if k.RoutingKeyQueues? || k.PatternQueues? {
      TextPieces(Parts(k), 5, Split(k.rk, SEP), 4);
    }
  }

  lemma IdentifyQueue(ns: string, q: string, part: QueuePart)
    ensures Identify(Tokens(QueueKey(ns, q, part))) == Some(QueueKey(ns, q, part))
  {
    hide QueuePartOf, QueueTag;
    TagsInvert(part, GroupPending, Config);
  }

  lemma IdentifyQueueText(k: RedisKey)
    requires k.GroupKey? || k.ConsumerProcessing?
    ensures Identify(Tokens(k)) == Some(k)
  {
    hide Split, Join, QueuePartOf, GroupPartOf, GroupTag;
    TagsInvert(Pending, if k.GroupKey? then k.groupPart else GroupPending, Config);
    TextPieces(Parts(k), 5, Split(Parts(k)[5], SEP), 4);
  }

  lemma IdentifyMain(t: seq<string>)
    requires |t| >= 1
    ensures Identify(["main"] + t) == SystemOf(t)
  {
    hide SystemOf;
    assert (["main"] + t)[1..] == t;
  }

  lemma CutThree(a: string, b: string, text: string, p: seq<string>)
    ensures [a, b, text][..2] + p + [a, b, text][3..] == [a] + ([b] + p)
    ensures ([b] + p)[1..] == p
  {
  }

  lemma CutFour(a: string, b: string, text: string, c: string, p: seq<string>)
    ensures var t := [b] + p + [c];
      && [a, b, text, c][..2] + p + [a, b, text, c][3..] == [a] + t
      && t[1..] == p + [c] && t[1..|t| - 1] == p && (p + [c])[..|p|] == p
  {
  }

  lemma IdentifyMessage(id: string)
    ensures Identify(Tokens(Message(id))) == Some(Canonical(Message(id)))
  {
    hide Split, Join, Identify, EndsInTail;
    var p := Split(id, SEP);
    TailPiece(id);
    CutThree("main", "msg", id, p);
    IdentifyMain(["msg"] + p);
  }

  lemma IdentifyHistory(id: string)
    ensures Identify(Tokens(MessageHistory(id))) == Some(MessageHistory(id))
  {
    hide Split, Join, Identify, SystemText, SystemPartOf;
    var p := Split(id, SEP);
    CutFour("main", "msg", id, "uh", p);
    IdentifyMain(["msg"] + p + ["uh"]);
  }

  /** An id between its two tags. */
  lemma IdentifySystemText(k: RedisKey)
    requires k.JobWorker? || k.WorkerHeartbeat? || k.ConsumerQueues? || k.ConsumerHeartbeat?
    ensures Identify(Tokens(k)) == Some(k)
  {
    hide Split, Join, Identify, MessageOf;
    var p, tag, last := Split(k.id, SEP), Parts(k)[1], Parts(k)[3];
    CutFour("main", tag, k.id, last, p);
    IdentifyMain([tag] + p + [last]);
  }

  lemma SystemTagPlain(part: SystemPart)
    ensures SystemTag(part) != "msg"
  {
  }

  lemma IdentifySystem(part: SystemPart)
    ensures Identify(Tokens(SystemKey(part))) == Some(SystemKey(part))
  {
    hide SystemTag, SystemPartOf, MessageOf, Identify;
    SystemTagPlain(part);
    TagsInvert(Pending, GroupPending, part);
    IdentifyMain([SystemTag(part)]);
    assert ["main"] + [SystemTag(part)] == ["main", SystemTag(part)];
  }

  lemma IdentifyPurge(k: RedisKey)
    requires k.PendingPurgeJobs? || k.ActivePurgeJobs?
    ensures Identify(Tokens(k)) == Some(k)
  {
    hide SystemPartOf, MessageOf, SystemText;
  }

  lemma IdentifyNamespace(k: RedisKey)
    requires k.NamespaceQueues? || k.NamespaceExchanges?
    ensures Identify(Tokens(k)) == Some(k)
  {
  }

  lemma IdentifyTokens(k: RedisKey)
    ensures Identify(Tokens(k)) == Some(Canonical(k))
  {
    hide Identify, Tokens;
    match k
    case Message(id) => IdentifyMessage(id);
    case MessageHistory(id) => IdentifyHistory(id);
    case JobWorker(_) => IdentifySystemText(k);
    case WorkerHeartbeat(_) => IdentifySystemText(k);
    case ConsumerQueues(_) => IdentifySystemText(k);
    case ConsumerHeartbeat(_) => IdentifySystemText(k);
    case NamespaceQueues(_) => IdentifyNamespace(k);
    case NamespaceExchanges(_) => IdentifyNamespace(k);
    case QueueKey(ns, q, part) => IdentifyQueue(ns, q, part);
    case GroupKey(_, _, _, _) => IdentifyQueueText(k);
    case ConsumerProcessing(_, _, _) => IdentifyQueueText(k);
    case ExchangeKey(_, _) => IdentifyExchange(k);
    case ExchangeProps(_, _) => IdentifyExchange(k);
    case RoutingKeys(_, _) => IdentifyExchange(k);
    case RoutingKeyQueues(_, _, _) => IdentifyExchange(k);
    case BindingPatterns(_, _) => IdentifyExchange(k);
    case PatternQueues(_, _, _) => IdentifyExchange(k);
    case FanoutQueues(_, _) => IdentifyExchange(k);
    case SystemKey(part) => IdentifySystem(part);
    case PendingPurgeJobs => IdentifyPurge(k);
    case ActivePurgeJobs => IdentifyPurge(k);
  }

  /** Cutting a joined list in which only the part at `i` may hold separators. */
  lemma {:induction false} SplitJoinAny(parts: seq<string>, i: nat)
    requires i < |parts|
    requires forall j :: 0 <= j < |parts| && j != i ==> SEP !in parts[j]
    ensures Split(Join(parts, SEP), SEP) == parts[..i] + Split(parts[i], SEP) + parts[i + 1..]
  {
    if i == 0 {
      if |parts| > 1 {
        SplitConcat(parts[0], Join(parts[1..], SEP), SEP);
        SplitJoin(parts[1..], SEP);
      }
    } else {
      var rest := parts[1..];
      SplitConcat(parts[0], Join(rest, SEP), SEP);
      SplitWhole(parts[0], SEP);
      assert rest[i - 1] == parts[i];
      SplitJoinAny(rest, i - 1);
      ShiftCut(parts, i, Split(parts[i], SEP));
    }
  }

  lemma ShiftCut(parts: seq<string>, i: nat, middle: seq<string>)
    requires 0 < i < |parts|
    ensures [parts[0]] + (parts[1..][..i - 1] + middle + parts[1..][i - 1 + 1..])
         == parts[..i] + middle + parts[i + 1..]
  {
    assert [parts[0]] + parts[1..][..i - 1] == parts[..i];
    assert parts[1..][i..] == parts[i + 1..];
  }

  lemma TagsFree(q: QueuePart, g: GroupPart, s: SystemPart)
    ensures SEP !in QueueTag(q) && SEP !in GroupTag(g) && SEP !in SystemTag(s)
  {
  }

  lemma NamesFree(k: RedisKey, i: nat)
    requires WellNamed(k) && i < |Parts(k)| && i != TextAt(k)
    ensures SEP !in Parts(k)[i]
  {
    hide ValidName, QueueTag, GroupTag, SystemTag;
    TagsFree(if k.QueueKey? then k.part else Pending, if k.GroupKey? then k.groupPart else GroupPending,
             if k.SystemKey? then k.system else Config);
    var name := Parts(k)[i];
    if ValidName(name) {
      ValidNameStable(name);
    }
  }

  lemma SplitPrefixed(pre: seq<string>, parts: seq<string>, i: nat)
    requires |pre| > 0 && |parts| > 0
    requires forall j :: 0 <= j < |pre| ==> SEP !in pre[j]
    requires forall j :: 0 <= j < |parts| && j != i ==> SEP !in parts[j]
    ensures Split(Join(pre + parts, SEP), SEP)
         == pre + if i < |parts| then parts[..i] + Split(parts[i], SEP) + parts[i + 1..] else parts
  {
    hide Split, Join;
    var all, n := pre + parts, |pre|;
    if i < |parts| {
      SplitJoinAny(all, n + i);
      assert all[..n + i] == pre + parts[..i] && all[n + i + 1..] == parts[i + 1..];
    } else {
      SplitJoin(all, SEP);
    }
  }

  lemma SplitRender(k: RedisKey)
    requires WellNamed(k)
    ensures Split(Render(k), SEP) == PREFIX + Tokens(k)
  {
    hide Split, Join, WellNamed, Parts, TextAt;
    forall j | 0 <= j < |Parts(k)| && j != TextAt(k) ensures SEP !in Parts(k)[j] {
      NamesFree(k, j);
    }
    PartsThere(k);
    SplitPrefixed(PREFIX, Parts(k), TextAt(k));
  }

  lemma PartsThere(k: RedisKey)
    ensures |Parts(k)| > 0
  {
  }

  /** The message's key is the history's. */
  predicate Clash(message: RedisKey, history: RedisKey) {
    message.Message? && history.MessageHistory? && message.id == history.id + HISTORY_TAIL
  }

  /** When two structures share a key, over every family at once, for all valid names and whatever the
      routing keys, patterns and ids hold: they are the same structure, or a message and the history of a
      message, the former's id being the latter's with the history tag behind it. */
  lemma RenderEqualIff(a: RedisKey, b: RedisKey)
    requires WellNamed(a) && WellNamed(b)
    ensures Render(a) == Render(b) <==> a == b || Clash(a, b) || Clash(b, a)
  {
    hide Split, Tokens, Identify, Render, WellNamed;
    if Render(a) == Render(b) {
      SplitRender(a);
      SplitRender(b);
      assert (PREFIX + Tokens(a))[2..] == Tokens(a);
      assert (PREFIX + Tokens(b))[2..] == Tokens(b);
      IdentifyTokens(a);
      IdentifyTokens(b);
      SameCanonical(a, b);
    } else if Clash(a, b) {
      HistoryTailCollides(b.id);
    } else if Clash(b, a) {
      HistoryTailCollides(a.id);
    }
  }

  lemma SameCanonical(a: RedisKey, b: RedisKey)
    requires Canonical(a) == Canonical(b)
    ensures a == b || Clash(a, b) || Clash(b, a)
  {
    if a.Message? && EndsInTail(a.id) {
      assert a.id == a.id[..|a.id| - 3] + HISTORY_TAIL;
    }
    if b.Message? && EndsInTail(b.id) {
      assert b.id == b.id[..|b.id| - 3] + HISTORY_TAIL;
    }
  }

  /** So no two structures share a key as long as no message id ends in the history tail. */
  lemma RenderInjective(a: RedisKey, b: RedisKey)
    requires WellNamed(a) && WellNamed(b)
    requires a.Message? ==> !EndsInTail(a.id)
    requires b.Message? ==> !EndsInTail(b.id)
    requires Render(a) == Render(b)
    ensures a == b
  {
    RenderEqualIff(a, b);
  }

  /** Every history key is also the key of a message with a longer id. */
  lemma HistoryTailCollides(id: string)
    ensures Render(Message(id + HISTORY_TAIL)) == Render(MessageHistory(id))
    ensures Message(id + HISTORY_TAIL) != MessageHistory(id)
  {
    hide Join;
    var a, b := PREFIX + ["main", "msg", id + ":uh"], PREFIX + ["main", "msg", id, "uh"];
    assert a == PREFIX + ["main", "msg"] + [id + ":uh"];
    assert b == PREFIX + ["main", "msg", id] + ["uh"];
    assert PREFIX + ["main", "msg", id] == PREFIX + ["main", "msg"] + [id];
    JoinSnoc(PREFIX + ["main", "msg"], id + ":uh");
    JoinSnoc(PREFIX + ["main", "msg"], id);
    JoinSnoc(PREFIX + ["main", "msg", id], "uh");
  }
}
