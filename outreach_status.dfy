/**
 * Colour bands of the weekly outreach board: the ratio of a weekly total to
 * its goal is sorted into red < orange < yellow < green < over, and a column
 * header is mapped to the goal it is measured against, if any.
 */
module OutreachStatus {
  import opened Wrappers
  import opened Text

  datatype Status = Red | Orange | Yellow | Green | Over

  /** Position of a band in the order red < orange < yellow < green < over. */
  function Rank(s: Status): (r: nat)
    ensures r <= 4
  {
    match s
    case Red => 0
    case Orange => 1
    case Yellow => 2
    case Green => 3
    case Over => 4
  }

  /** `statusFromPct` for a finite ratio (1.0 is 100 %). */
  function StatusFromPct(pct: real): Status {
    if pct < 0.30 then Red
    else if pct < 0.60 then Orange
    else if pct < 0.80 then Yellow
    else if pct <= 1.00 then Green
    else Over
  }

  /** Each band is exactly the interval of ratios its threshold comparisons describe. */
  lemma StatusBands(pct: real)
    ensures StatusFromPct(pct) == Red <==> pct < 0.30
    ensures StatusFromPct(pct) == Orange <==> 0.30 <= pct < 0.60
    ensures StatusFromPct(pct) == Yellow <==> 0.60 <= pct < 0.80
    ensures StatusFromPct(pct) == Green <==> 0.80 <= pct <= 1.00
    ensures StatusFromPct(pct) == Over <==> 1.00 < pct
  {
  }

  /** A larger ratio never gets a lower band. */
  lemma StatusMonotone(p: real, q: real)
    requires p <= q
    ensures Rank(StatusFromPct(p)) <= Rank(StatusFromPct(q))
  {
  }

  /** With a goal of 100: 0 is red, 45 orange, 100 green (the goal itself is still green) and 150 over. */
  lemma StatusExamples()
    ensures StatusFromPct(0.0 / 100.0) == Red
    ensures StatusFromPct(45.0 / 100.0) == Orange
    ensures StatusFromPct(100.0 / 100.0) == Green
    ensures StatusFromPct(150.0 / 100.0) == Over
  {
  }

  /** A weekly goal; every goal of the board is positive, so a ratio to it is always defined. */
  type Goal = g: int | g > 0 witness 1

  /** `WEEKLY_GOALS`: the weekly goal of each base column the board colours. */
  const WeeklyGoals: map<string, Goal> := map[
    "Connections" := 400,
    "Posts" := 14,
    "Comments" := 80,
    "LI_Erstnachricht" := 180,
    "UW_Proposals" := 15
  ]

  /** The name after the first colon (the whole header when there is none), trimmed. */
  function HeaderName(header: string): string {
    var colon := IndexOf(header, ':');
    if colon >= 0 then Trim(header[colon + 1..]) else Trim(header)
  }

  predicate IsPartLetter(c: char) {
    c == 'J' || c == 'j' || c == 'A' || c == 'a'
  }

  /** `/^(J|A)(?:[_\s-]|$)/i`: the name of a J or A part column. */
  predicate HasPartPrefix(name: string) {
    |name| >= 1 && IsPartLetter(name[0])
    && (|name| == 1 || name[1] == '_' || name[1] == '-' || IsJsSpace(name[1]))
  }

  /** `/(?:[_\s]J|[_\s]A|\(J\)|\(A\))$/i`: a name ending in a part marker. */
  predicate HasPartSuffix(name: string) {
    var n := |name|;
    (n >= 2 && (name[n - 2] == '_' || IsJsSpace(name[n - 2])) && IsPartLetter(name[n - 1]))
    || (n >= 3 && name[n - 3] == '(' && IsPartLetter(name[n - 2]) && name[n - 1] == ')')
  }

  /** `goalKeyFromHeader`: the goal key a header is coloured against, if any. */
  function GoalKeyFromHeader(header: string): (key: Option<string>)
    ensures key.Some? ==> key.value in WeeklyGoals && key.value == HeaderName(header)
    ensures HasPartPrefix(HeaderName(header)) || HasPartSuffix(HeaderName(header)) ==> key.None?
  {
    var name := HeaderName(header);
    if HasPartPrefix(name) then None
    else if HasPartSuffix(name) then None
    else if name in WeeklyGoals then Some(name)
    else None
  }

  /** No goal key looks like a part name, so the two filters never hide a goal. */
  lemma GoalKeysAreNotParts(k: string)
    requires k in WeeklyGoals
    ensures !HasPartPrefix(k) && !HasPartSuffix(k)
  {
    assert k == "Connections" || k == "Posts" || k == "Comments" || k == "LI_Erstnachricht" || k == "UW_Proposals";
  }

  /** A header has a goal key exactly when its trimmed name is one of the goal names. */
  lemma GoalKeyCharacterization(header: string, k: string)
    ensures GoalKeyFromHeader(header) == Some(k) <==> k in WeeklyGoals && HeaderName(header) == k
  {
    if k in WeeklyGoals && HeaderName(header) == k {
      GoalKeysAreNotParts(k);
    }
  }

  /** In `tab:name` with a colon-free tab name, the name is what is matched. */
  lemma HeaderNameAfterColon(tab: string, name: string)
    requires ':' !in tab
    ensures HeaderName(tab + ":" + name) == Trim(name)
  {
    var h := tab + ":" + name;
    var r := IndexOf(h, ':');
    assert h[|tab|] == ':';
    assert h[..|tab|] == tab;
    assert h[|tab| + 1..] == name;
  }

  lemma TrimStartUnchanged(s: string)
    requires s != [] && !IsJsSpace(s[0])
    ensures TrimStart(s) == s
  {
  }

  lemma TrimUnchanged(s: string)
    requires s != [] && !IsJsSpace(s[0]) && !IsJsSpace(s[|s| - 1])
    ensures Trim(s) == s
  {
    TrimStartUnchanged(s);
  }

  /** The goal names carry no surrounding white space. */
  lemma GoalNamesTrimmed(k: string)
    requires k in WeeklyGoals
    ensures Trim(k) == k
  {
    assert k == "Connections" || k == "Posts" || k == "Comments" || k == "LI_Erstnachricht" || k == "UW_Proposals";
    assert k != [] && !IsJsSpace(k[0]) && !IsJsSpace(k[|k| - 1]);
    TrimUnchanged(k);
  }

  /** Every merged header `Content:<goal>` or `Outreach:<goal>` is coloured against that goal. */
  lemma GoalHeadersResolve(tab: string, k: string)
    requires ':' !in tab && k in WeeklyGoals
    ensures GoalKeyFromHeader(tab + ":" + k) == Some(k)
  {
    HeaderNameAfterColon(tab, k);
    GoalNamesTrimmed(k);
    GoalKeyCharacterization(tab + ":" + k, k);
  }

  /** A header whose name starts with a J or A part marker (`J_`, `A-`, ...) gets no colour. */
  lemma PartHeadersHaveNoGoal(tab: string, name: string)
    requires ':' !in tab
    requires |name| >= 2 && IsPartLetter(name[0]) && (name[1] == '_' || name[1] == '-')
    ensures GoalKeyFromHeader(tab + ":" + name) == None
  {
    HeaderNameAfterColon(tab, name);
    TrimKeepsPartPrefix(name);
  }

  lemma TrimKeepsPartPrefix(name: string)
    requires |name| >= 2 && IsPartLetter(name[0]) && (name[1] == '_' || name[1] == '-')
    ensures HasPartPrefix(Trim(name))
  {
    TrimStartUnchanged(name);
    var r := TrimEnd(name);
    assert Trim(name) == r;
    assert |r| >= 2;
    assert r[0] == name[0] && r[1] == name[1];
  }
}
