/**
  The issue tracker as the watchdog's only memory: issues, their threads, a log of what was
  dispatched, and the GitHub calls that may fail one by one.
 */
module Tracker {
  import opened Common
  import opened DarkLadder
  import opened Detection

  /** The machine-readable parts of a body or comment, in order of appearance. */
  datatype Marker =
    | KeyMarker(key: Key)
    | InstanceMarker(pod: string)
    | TerminatedMarker(app: string, startedAt: string)
    | StateMarker(mark: StateMark)

  type Text = seq<Marker>

  /** `title` is the key whose stable title the issue carries, if it carries one. */
  datatype Issue = Issue(title: Option<Key>, body: Text, comments: seq<Text>, open: bool)

  /**
    How GitHub answers a call: done; refused without effect (a refusal may be the comment
    cap); an error raised after the effect took place, as a timeout can; or the run is
    killed before the call.
   */
  datatype Reply = Ok | Refused | CapRefused | Late | Killed

  predicate TookEffect(r: Reply) {
    r.Ok? || r.Late?
  }

  datatype Event =
    | Terminated(app: string, startedAt: string)
    | TerminateLost(app: string, startedAt: string)
    | Sent(issue: nat, action: Action, facts: DarkFacts, at: real)
    | Recorded(issue: nat, action: Action, facts: DarkFacts, at: real)
    | RecordLost(issue: nat, action: Action)

  /** `calls` numbers the calls made so far; `alive` is false once the current run has died. */
  datatype World = World(issues: seq<Issue>, log: seq<Event>, calls: nat, alive: bool)

  type Replies = nat -> Reply

  // ---- Reading ----

  /** The first state marker of a comment. */
  function MarkOf(text: Text): StateMark {
    if text == [] then NoMark
    else if text[0].StateMarker? then text[0].mark
    else MarkOf(text[1..])
  }

  /** Only the first state marker of a comment counts, readable or not. */
  lemma {:induction false} MarkIsFirst(text: Text, i: nat)
    requires i < |text| && text[i].StateMarker? && forall j :: 0 <= j < i ==> !text[j].StateMarker?
    ensures MarkOf(text) == text[i].mark
    decreases i
  {
    if i > 0 {
      assert !text[0].StateMarker?;
      forall j | 0 <= j < i - 1 ensures !text[1..][j].StateMarker? {
        assert text[1..][j] == text[j + 1];
      }
      MarkIsFirst(text[1..], i - 1);
    }
  }

  lemma {:induction false} NoMarkInside(text: Text)
    requires forall j :: 0 <= j < |text| ==> !text[j].StateMarker?
    ensures MarkOf(text) == NoMark
  {
    if text != [] {
      NoMarkInside(text[1..]);
    }
  }

  function Marks(comments: seq<Text>): seq<StateMark> {
    seq(|comments|, i requires 0 <= i < |comments| => MarkOf(comments[i]))
  }

  function ThreadState(comments: seq<Text>): LadderState {
    Fold(DEFAULT_STATE, Marks(comments))
  }

  lemma MarksConcat(a: seq<Text>, b: seq<Text>)
    ensures Marks(a + b) == Marks(a) + Marks(b)
  {
  }

  /** The subject of the first key marker of a kind. */
  function FirstKey(body: Text, kind: Kind): Option<string> {
    if body == [] then None
    else if body[0].KeyMarker? && body[0].key.kind == kind then Some(body[0].key.subject)
    else FirstKey(body[1..], kind)
  }

  /** The last instance marker of a text. */
  function LatestInstance(text: Text): Option<string> {
    if text == [] then None
    else if Last(text).InstanceMarker? then Some(Last(text).pod)
    else LatestInstance(Front(text))
  }

  function Flatten(comments: seq<Text>): Text {
    if comments == [] then [] else Flatten(Front(comments)) + Last(comments)
  }

  predicate HasMark(issue: Issue, m: Marker) {
    m in issue.body || exists i :: 0 <= i < |issue.comments| && m in issue.comments[i]
  }

  predicate Tracks(issue: Issue, key: Key) {
    KeyMarker(key) in issue.body || issue.title == Some(key)
  }

  // ---- Calls ----

  function WithComment(issues: seq<Issue>, n: nat, text: Text): seq<Issue> {
    if n < |issues| then issues[n := issues[n].(comments := issues[n].comments + [text])] else issues
  }

  function WithClosed(issues: seq<Issue>, n: nat): seq<Issue> {
    if n < |issues| then issues[n := issues[n].(open := false)] else issues
  }

  /** A strict call that only reads: its failure ends the run. */
  function Read(w: World, g: Replies): World {
    if !w.alive then w else w.(calls := w.calls + 1, alive := g(w.calls).Ok?)
  }

  /** A call whose failure is tolerated; only a kill ends the run. */
  function Tolerated(w: World, g: Replies): World {
    if !w.alive then w else w.(calls := w.calls + 1, alive := !g(w.calls).Killed?)
  }

  function Comment(w: World, n: nat, text: Text, g: Replies): World {
    if !w.alive then w
    else Read(w, g).(issues := if TookEffect(g(w.calls)) then WithComment(w.issues, n, text) else w.issues)
  }

  function CommentBestEffort(w: World, n: nat, text: Text, g: Replies): World {
    if !w.alive then w
    else Tolerated(w, g).(issues := if TookEffect(g(w.calls)) then WithComment(w.issues, n, text) else w.issues)
  }

  function Close(w: World, n: nat, g: Replies): World {
    if !w.alive then w
    else Read(w, g).(issues := if TookEffect(g(w.calls)) then WithClosed(w.issues, n) else w.issues)
  }

  function CloseBestEffort(w: World, n: nat, g: Replies): World {
    if !w.alive then w
    else Tolerated(w, g).(issues := if TookEffect(g(w.calls)) then WithClosed(w.issues, n) else w.issues)
  }

  function Create(w: World, issue: Issue, g: Replies): World {
    if !w.alive then w
    else Read(w, g).(issues := if TookEffect(g(w.calls)) then w.issues + [issue] else w.issues)
  }

  /**
    A workflow dispatch. An unsafe name raises before any call. `done` is logged when the
    dispatch took effect, and `lost` with it when its error ends the run before a record.
   */
  function Dispatch(w: World, name: string, done: Event, lost: Event, g: Replies): World {
    if !w.alive then w
    else if !SafeName(name) then w.(alive := false)
    else
      var r := g(w.calls);
      Read(w, g).(log := if r.Ok? then w.log + [done] else if r.Late? then w.log + [done, lost] else w.log)
  }

  predicate SafeCore(name: string) {
    && 1 <= |name| <= 253
    && LowerAlnum(name[0])
    && forall i :: 0 <= i < |name| ==> LowerAlnum(name[i]) || name[i] == '.' || name[i] == '-'
  }

  /** The name pattern; its end anchor also matches before one final newline. */
  predicate SafeName(name: string) {
    SafeCore(name) || (name != "" && Last(name) == '\n' && SafeCore(Front(name)))
  }

  /** A call takes effect when it is answered or answers too late, and not when it is refused or killed. */
  lemma CallsExact(w: World, n: nat, text: Text, issue: Issue, g: Replies)
    requires w.alive && n < |w.issues|
    ensures var done := g(w.calls) in {Ok, Late};
            && Comment(w, n, text, g).issues
               == (if done then w.issues[n := w.issues[n].(comments := w.issues[n].comments + [text])] else w.issues)
            && CommentBestEffort(w, n, text, g).issues == Comment(w, n, text, g).issues
            && Close(w, n, g).issues == (if done then w.issues[n := w.issues[n].(open := false)] else w.issues)
            && CloseBestEffort(w, n, g).issues == Close(w, n, g).issues
            && Create(w, issue, g).issues == (if done then w.issues + [issue] else w.issues)
    ensures Comment(w, n, text, g).alive <==> g(w.calls) == Ok
    ensures Close(w, n, g).alive <==> g(w.calls) == Ok
    ensures Create(w, issue, g).alive <==> g(w.calls) == Ok
    ensures CommentBestEffort(w, n, text, g).alive <==> g(w.calls) != Killed
    ensures CloseBestEffort(w, n, g).alive <==> g(w.calls) != Killed
  {
  }

  /** The first `n` characters are a name: letters, digits, dots and dashes, not begun by the last two, not too many. */
  predicate NameOfLength(name: string, n: nat) {
    && 1 <= n <= |name| && n <= 253 && name[0] != '.' && name[0] != '-'
    && forall i :: 0 <= i < n ==> 'a' <= name[i] <= 'z' || '0' <= name[i] <= '9' || name[i] == '.' || name[i] == '-'
  }

  /** A name is safe if it is one to its end, or to a final newline. */
  lemma SafeNameExact(name: string)
    ensures SafeName(name) <==>
            NameOfLength(name, |name|)
            || (name != "" && name[|name| - 1] == '\n' && NameOfLength(name, |name| - 1))
  {
    if name != "" && SafeCore(Front(name)) {
      forall i | 0 <= i < |name| - 1 ensures name[i] == Front(name)[i] {
      }
    }
    if name != "" && NameOfLength(name, |name| - 1) {
      forall i | 0 <= i < |name| - 1 ensures name[i] == Front(name)[i] {
      }
    }
  }

  // ---- Counting in the log ----

  datatype What =
    | Terminates(app: string, startedAt: string)
    | LostTerminates(app: string, startedAt: string)
    | Sends(issue: nat, action: Action)
    | Records(issue: nat, action: Action)
    | LostRecords(issue: nat, action: Action)

  predicate Is(e: Event, what: What) {
    match what
    case Terminates(a, s) => e == Terminated(a, s)
    case LostTerminates(a, s) => e == TerminateLost(a, s)
    case Sends(n, a) => e.Sent? && e.issue == n && e.action == a
    case Records(n, a) => e.Recorded? && e.issue == n && e.action == a
    case LostRecords(n, a) => e == RecordLost(n, a)
  }

  function Count(log: seq<Event>, what: What): nat {
    if log == [] then 0 else Count(Front(log), what) + (if Is(Last(log), what) then 1 else 0)
  }

}
