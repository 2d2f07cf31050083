/** The notebook application: the list of mistake records and the operations
    on it (add, update, toggle reviewed, delete, delete all mastered), the
    learner's streak and XP, the four-way list filter, the tag cloud, the tag
    and selection toggles and the smart practice selection. */
module App {
  import opened Types
  import opened Sequences
  import opened GamificationHeader

  // ---------------------------------------------------------------------
  // Streak and XP

  /** The streak after opening the app `diffDays` whole days after the last
      visit: one more on the next day, back to 1 after a gap, otherwise kept
      (a streak of 0 starts at 1). */
  function NextStreak(streak: int, diffDays: int): (r: int)
    ensures diffDays == 1 ==> r == streak + 1
    ensures diffDays > 1 ==> r == 1
    ensures diffDays < 1 ==> r == (if streak == 0 then 1 else streak)
    ensures streak >= 0 ==> r >= 1
  {
    if diffDays == 1 then streak + 1
    else if diffDays > 1 then 1
    else if streak == 0 then 1
    else streak
  }

  /** Opening the app again on the same day leaves the streak as the first
      opening set it. */
  lemma SameDayReopenKeepsStreak(streak: int, diffDays: int)
    requires streak >= 0
    ensures NextStreak(NextStreak(streak, diffDays), 0) == NextStreak(streak, diffDays)
  {
  }

  /** All XP earned so far: the thresholds of the completed levels
      (200 + 400 + ... + 200 * (level - 1)) plus the XP in the current level. */
  function TotalXp(s: UserStats): int
  {
    100 * s.level * (s.level - 1) + s.xp
  }

  /** The statistics after gaining XP, and whether the level-up toast shows. */
  datatype XpGain = XpGain(stats: UserStats, leveledUp: bool)

  /** Gaining `amount` XP: reaching the current level's threshold moves up
      exactly one level and carries the excess over; nothing else changes. */
  function GainXp(s: UserStats, amount: int): (g: XpGain)
    ensures g.leveledUp <==> s.xp + amount >= XpForNextLevel(s.level)
    ensures g.stats.level == if g.leveledUp then s.level + 1 else s.level
    ensures g.stats == s.(xp := g.stats.xp, level := g.stats.level)
    ensures TotalXp(g.stats) == TotalXp(s) + amount
  {
    var xp := s.xp + amount;
    var needed := XpForNextLevel(s.level);
    if xp >= needed then
      var t := s.(xp := xp - needed, level := s.level + 1);
      assert 100 * (s.level + 1) * s.level == 100 * s.level * (s.level - 1) + 200 * s.level;
      XpGain(t, true)
    else
      XpGain(s.(xp := xp), false)
  }

  /** A gain no larger than the next level's threshold keeps the XP within
      the progress bar of the level reached. */
  lemma GainKeepsBarInRange(s: UserStats, amount: int)
    requires s.level >= 1 && 0 <= s.xp < XpForNextLevel(s.level)
    requires 0 <= amount <= XpForNextLevel(s.level + 1)
    ensures var t := GainXp(s, amount).stats;
            t.level >= 1 && 0 <= t.xp < XpForNextLevel(t.level)
  {
  }

  /** A large gain still moves up one level only: 1000 XP at level 1 gives
      level 2 with 800 XP, past level 2's threshold of 400, so the bar shows
      full. */
  lemma LargeGainLevelsUpOnce()
    ensures var s := UserStats(0, 1, 0, 0, 0, 0, []);
            var t := GainXp(s, 1000).stats;
            t.level == 2 && t.xp == 800 && t.xp >= XpForNextLevel(t.level) && Progress(t.xp, t.level) == 100.0
  {
  }

  // ---------------------------------------------------------------------
  // Records by id

  /** No two records share an id. */
  predicate UniqueIds(ms: seq<MistakeRecord>)
  {
    forall i, j :: 0 <= i < j < |ms| ==> ms[i].id != ms[j].id
  }

  /** `mistakes.find(m => m.id === id)`: the first record with that id. */
  function FindById(ms: seq<MistakeRecord>, id: string): (r: Option<MistakeRecord>)
    ensures r.None? <==> forall i :: 0 <= i < |ms| ==> ms[i].id != id
    ensures r.Some? ==> exists i :: 0 <= i < |ms| && ms[i] == r.value && r.value.id == id &&
                                    forall j :: 0 <= j < i ==> ms[j].id != id
  {
    if ms == [] then None
    else if ms[0].id == id then Some(ms[0])
    else
      var r := FindById(ms[1..], id);
      assert forall i :: 0 < i < |ms| ==> ms[i] == ms[1..][i - 1];
      if r.Some? then
        var i :| 0 <= i < |ms[1..]| && ms[1..][i] == r.value && r.value.id == id &&
                 forall j :: 0 <= j < i ==> ms[1..][j].id != id;
        assert ms[i + 1] == r.value;
        r
      else
        r
  }

  /** `mistakes.map(m => m.id === u.id ? u : m)`: every record with `u`'s id
      becomes `u`; the others keep their place. */
  function ReplaceById(ms: seq<MistakeRecord>, u: MistakeRecord): (r: seq<MistakeRecord>)
    ensures |r| == |ms|
    ensures forall i :: 0 <= i < |ms| ==> r[i].id == ms[i].id
    ensures forall i :: 0 <= i < |ms| && ms[i].id != u.id ==> r[i] == ms[i]
    ensures forall i :: 0 <= i < |ms| && ms[i].id == u.id ==> r[i] == u
    ensures (forall i :: 0 <= i < |ms| ==> ms[i].id != u.id) ==> r == ms
  {
    seq(|ms|, i requires 0 <= i < |ms| => if ms[i].id == u.id then u else ms[i])
  }

  /** Saving the same record twice is the same as saving it once. */
  lemma ReplaceByIdIdempotent(ms: seq<MistakeRecord>, u: MistakeRecord)
    ensures ReplaceById(ReplaceById(ms, u), u) == ReplaceById(ms, u)
  {
  }

  /** Replacing keeps the set of ids and, with it, their uniqueness. */
  lemma ReplaceByIdKeepsUnique(ms: seq<MistakeRecord>, u: MistakeRecord)
    requires UniqueIds(ms)
    ensures UniqueIds(ReplaceById(ms, u))
  {
  }

  /** The list after toggling the reviewed flag of the record with id `id`;
      an unknown id changes nothing. */
  function ToggleReviewed(ms: seq<MistakeRecord>, id: string): (r: seq<MistakeRecord>)
    ensures |r| == |ms|
    ensures forall i :: 0 <= i < |ms| ==> r[i].id == ms[i].id
    ensures forall i :: 0 <= i < |ms| && ms[i].id != id ==> r[i] == ms[i]
    ensures (forall i :: 0 <= i < |ms| ==> ms[i].id != id) ==> r == ms
    ensures UniqueIds(ms) ==>
              forall i :: 0 <= i < |ms| && ms[i].id == id ==> r[i] == ms[i].(isReviewed := !ms[i].isReviewed)
  {
    match FindById(ms, id)
    case None => ms
    case Some(t) => ReplaceById(ms, t.(isReviewed := !t.isReviewed))
  }

  /** With unique ids, toggling the same record twice restores the list. */
  lemma ToggleReviewedTwice(ms: seq<MistakeRecord>, id: string)
    requires UniqueIds(ms)
    ensures ToggleReviewed(ToggleReviewed(ms, id), id) == ms
  {
    var once := ToggleReviewed(ms, id);
    assert UniqueIds(once);
    var twice := ToggleReviewed(once, id);
    forall i | 0 <= i < |ms| ensures twice[i] == ms[i] {
      if ms[i].id == id {
        assert once[i] == ms[i].(isReviewed := !ms[i].isReviewed);
      }
    }
  }

  /** The list without the records with id `id`. */
  function RemoveId(ms: seq<MistakeRecord>, id: string): (r: seq<MistakeRecord>)
    ensures SubsequenceOf(r, ms)
    ensures forall m :: m in r <==> m in ms && m.id != id
    ensures forall m :: multiset(r)[m] == if m.id != id then multiset(ms)[m] else 0
  {
    Filter(ms, (m: MistakeRecord) => m.id != id)
  }

  /** The records still to practise. */
  function Unreviewed(ms: seq<MistakeRecord>): (r: seq<MistakeRecord>)
    ensures SubsequenceOf(r, ms)
    ensures forall m :: m in r <==> m in ms && !m.isReviewed
    ensures forall m :: multiset(r)[m] == if !m.isReviewed then multiset(ms)[m] else 0
  {
    Filter(ms, (m: MistakeRecord) => !m.isReviewed)
  }

  /** The records marked as mastered. */
  function Reviewed(ms: seq<MistakeRecord>): (r: seq<MistakeRecord>)
    ensures SubsequenceOf(r, ms)
    ensures forall m :: m in r <==> m in ms && m.isReviewed
    ensures forall m :: multiset(r)[m] == if m.isReviewed then multiset(ms)[m] else 0
  {
    Filter(ms, (m: MistakeRecord) => m.isReviewed)
  }

  /** The ids of some records. */
  function Ids(ms: seq<MistakeRecord>): set<string>
  {
    set m | m in ms :: m.id
  }

  lemma IdsStep(ms: seq<MistakeRecord>, i: int)
    requires 0 <= i < |ms|
    ensures Ids(ms[..i + 1]) == Ids(ms[..i]) + {ms[i].id}
  {
    assert ms[..i + 1] == ms[..i] + [ms[i]];
  }

  /** The store after writing every record of `rs`, later ones last. */
  function PutAll(store: map<string, MistakeRecord>, rs: seq<MistakeRecord>): (r: map<string, MistakeRecord>)
    ensures r.Keys == store.Keys + Ids(rs)
    ensures forall k :: k in store && k !in Ids(rs) ==> r[k] == store[k]
    decreases |rs|
  {
    if rs == [] then store
    else
      var r := PutAll(store[rs[0].id := rs[0]], rs[1..]);
      assert Ids(rs) == {rs[0].id} + Ids(rs[1..]) by {
        assert rs == [rs[0]] + rs[1..];
      }
      r
  }

  /** Every record of `rs` that no later one overrides is what the store
      then holds under its id. */
  lemma {:induction false} PutAllKeepsLast(store: map<string, MistakeRecord>, rs: seq<MistakeRecord>, i: int)
    requires 0 <= i < |rs| && LastWithId(rs, i)
    ensures rs[i].id in PutAll(store, rs) && PutAll(store, rs)[rs[i].id] == rs[i]
    decreases |rs|
  {
    var rest := rs[1..];
    if i == 0 {
      assert rs[0].id !in Ids(rest) by {
        forall m | m in rest ensures m.id != rs[0].id {
          var j :| 0 <= j < |rest| && rest[j] == m;
          assert rs[j + 1] == m;
        }
      }
    } else {
      assert LastWithId(rest, i - 1) by {
        forall j | i - 1 < j < |rest| ensures rest[j].id != rest[i - 1].id {
          assert rs[j + 1] == rest[j];
        }
      }
      PutAllKeepsLast(store[rs[0].id := rs[0]], rest, i - 1);
    }
  }

  /** With distinct ids, the store holds every record written. */
  lemma PutAllStoresAll(store: map<string, MistakeRecord>, rs: seq<MistakeRecord>)
    requires UniqueIds(rs)
    ensures forall m :: m in rs ==> PutAll(store, rs)[m.id] == m
  {
    forall m | m in rs ensures PutAll(store, rs)[m.id] == m {
      var i :| 0 <= i < |rs| && rs[i] == m;
      PutAllKeepsLast(store, rs, i);
    }
  }

  /** No record after position `i` has the id of `rs[i]`. */
  predicate LastWithId(rs: seq<MistakeRecord>, i: int)
    requires 0 <= i < |rs|
  {
    forall j :: i < j < |rs| ==> rs[j].id != rs[i].id
  }

  // ---------------------------------------------------------------------
  // The list view's filter

  /** The two tabs of the list. */
  datatype Tab = Todo | Done

  /** The record belongs to the tab: not yet reviewed for Todo, reviewed for Done. */
  predicate OnTab(tab: Tab, m: MistakeRecord)
  {
    if tab == Todo then !m.isReviewed else m.isReviewed
  }

  /** The record is in the subject; `All` takes every subject. */
  predicate InSubject(subject: Subject, m: MistakeRecord)
  {
    subject == All || m.subject == subject
  }

  /** The record carries one of `tags`. */
  predicate SharesTag(m: MistakeRecord, tags: seq<string>)
  {
    exists t :: t in RecordTags(m) && t in tags
  }

  /** The record's question text contains the query, both lower-cased. */
  predicate MatchesQuery(m: MistakeRecord, query: string)
  {
    Includes(Lower(QuestionText(m)), Lower(query))
  }

  predicate Shown(m: MistakeRecord, tab: Tab, subject: Subject, query: string, tags: seq<string>)
  {
    OnTab(tab, m) && InSubject(subject, m) && MatchesQuery(m, query) && (tags == [] || SharesTag(m, tags))
  }

  /** The cards of the list: the records, in order, on the tab, in the
      subject, matching the search and carrying a selected tag (when any tag
      is selected). */
  function FilteredMistakes(ms: seq<MistakeRecord>, tab: Tab, subject: Subject, query: string,
                            tags: seq<string>): (r: seq<MistakeRecord>)
    ensures SubsequenceOf(r, ms)
    ensures forall m :: m in r <==>
              m in ms && (if tab == Todo then !m.isReviewed else m.isReviewed) &&
              (subject == All || m.subject == subject) &&
              (exists i :: OccursAt(Lower(QuestionText(m)), Lower(query), i)) &&
              (tags == [] || exists t :: t in RecordTags(m) && t in tags)
    ensures forall m :: multiset(r)[m] == if Shown(m, tab, subject, query, tags) then multiset(ms)[m] else 0
  {
    Filter(ms, (m: MistakeRecord) => Shown(m, tab, subject, query, tags))
  }

  /** With no subject, search or tag chosen, the list is exactly the tab's
      records: the counts the two tab buttons show. */
  lemma UnfilteredListIsTab(ms: seq<MistakeRecord>, tab: Tab)
    ensures FilteredMistakes(ms, tab, All, "", []) == (if tab == Todo then Unreviewed(ms) else Reviewed(ms))
  {
    forall m | m in ms ensures MatchesQuery(m, "") {
      assert OccursAt(Lower(QuestionText(m)), Lower(""), 0);
    }
    if tab == Todo {
      FilterSame(ms, (m: MistakeRecord) => Shown(m, tab, All, "", []), (m: MistakeRecord) => !m.isReviewed);
    } else {
      FilterSame(ms, (m: MistakeRecord) => Shown(m, tab, All, "", []), (m: MistakeRecord) => m.isReviewed);
    }
  }

  // ---------------------------------------------------------------------
  // Tag cloud

  /** The tags of all records, in order, repetitions kept. */
  function AllTags(ms: seq<MistakeRecord>): (ts: seq<string>)
    ensures forall t :: t in ts <==> exists m :: m in ms && t in RecordTags(m)
  {
    if ms == [] then []
    else
      var rest := AllTags(ms[1..]);
      assert forall m :: m in ms <==> m == ms[0] || m in ms[1..];
      RecordTags(ms[0]) + rest
  }

  /** The tag cloud of a subject: every tag of its records, once each, in
      ascending order. */
  function AvailableTags(ms: seq<MistakeRecord>, subject: Subject): (r: seq<string>)
    ensures StrictlySorted(r)
    ensures forall t :: t in r <==> exists m :: m in ms && (subject == All || m.subject == subject) && t in RecordTags(m)
  {
    SortedSet(AllTags(Filter(ms, (m: MistakeRecord) => InSubject(subject, m))))
  }

  /** The tag cloud is the only ascending, repetition-free list of those tags. */
  lemma AvailableTagsUnique(ms: seq<MistakeRecord>, subject: Subject, s: seq<string>)
    requires StrictlySorted(s)
    requires forall t :: t in s <==> exists m :: m in ms && InSubject(subject, m) && t in RecordTags(m)
    ensures s == AvailableTags(ms, subject)
  {
    SortedUnique(s, AvailableTags(ms, subject));
  }

  // ---------------------------------------------------------------------
  // Toggles

  /** No string twice. */
  predicate NoDuplicates(s: seq<string>)
  {
    forall i, j :: 0 <= i < j < |s| ==> s[i] != s[j]
  }

  /** A click on a tag of the cloud: a selected tag is dropped, another one
      appended. */
  function ToggleTag(tags: seq<string>, tag: string): (r: seq<string>)
    ensures tag in r <==> tag !in tags
    ensures forall t :: t != tag ==> (t in r <==> t in tags)
    ensures tag !in tags ==> r == tags + [tag]
    ensures tag in tags ==> SubsequenceOf(r, tags)
    ensures forall t :: t != tag ==> multiset(r)[t] == multiset(tags)[t]
  {
    if tag in tags then Filter(tags, (t: string) => t != tag) else tags + [tag]
  }

  /** Toggling never lists a tag twice. */
  lemma ToggleTagKeepsNoDuplicates(tags: seq<string>, tag: string)
    requires NoDuplicates(tags)
    ensures NoDuplicates(ToggleTag(tags, tag))
  {
    var r := ToggleTag(tags, tag);
    forall x ensures multiset(r)[x] <= 1 {
      DistinctOnce(tags, x);
      if x == tag && tag !in tags {
        assert multiset(r)[x] == multiset(tags)[x] + 1;
      }
    }
    OnceDistinct(r);
  }

  /** A sequence holding every string at most once has no duplicates. */
  lemma OnceDistinct(s: seq<string>)
    requires forall x :: multiset(s)[x] <= 1
    ensures NoDuplicates(s)
  {
    forall i, j | 0 <= i < j < |s| ensures s[i] != s[j] {
      assert s == s[..j] + [s[j]] + s[j + 1..];
      assert multiset(s)[s[j]] >= multiset(s[..j])[s[j]] + 1;
      assert multiset(s[..j])[s[i]] >= 1 by { assert s[..j][i] == s[i]; }
    }
  }

  /** A string occurs at most once in a sequence without duplicates. */
  lemma {:induction false} DistinctOnce(s: seq<string>, x: string)
    requires NoDuplicates(s)
    ensures multiset(s)[x] <= 1
  {
    if s != [] {
      assert s == [s[0]] + s[1..];
      DistinctOnce(s[1..], x);
      if s[0] == x {
        assert x !in s[1..] by {
          forall k | 1 <= k < |s| ensures s[k] != x {
            assert s[0] != s[k];
          }
        }
      }
    }
  }

  /** Clicking the same tag twice selects the same tags as before. */
  lemma ToggleTagTwice(tags: seq<string>, tag: string)
    ensures forall t :: t in ToggleTag(ToggleTag(tags, tag), tag) <==> t in tags
  {
  }

  /** A card clicked in selection mode: its id joins the selection, or leaves
      it when already there. */
  function SetToggle(ids: set<string>, id: string): (r: set<string>)
    ensures id in r <==> id !in ids
    ensures forall x :: x != id ==> (x in r <==> x in ids)
  {
    if id in ids then ids - {id} else ids + {id}
  }

  lemma SetToggleTwice(ids: set<string>, id: string)
    ensures SetToggle(SetToggle(ids, id), id) == ids
  {
  }

  // ---------------------------------------------------------------------
  // Smart practice

  /** The subject a practice sheet draws from: all of them, or one. */
  datatype PracticeSubject = Mixed | Only(subject: Subject)

  /** The dialog's choice: subject, number of questions and optional tags. */
  datatype PracticeConfig = PracticeConfig(subject: PracticeSubject, count: int, tags: Option<seq<string>>)

  /** Tags were given and the list is not empty. */
  predicate HasTags(cfg: PracticeConfig)
  {
    cfg.tags.Some? && cfg.tags.value != []
  }

  predicate Candidate(cfg: PracticeConfig, m: MistakeRecord)
  {
    !m.isReviewed && (cfg.subject.Only? ==> m.subject == cfg.subject.subject) &&
    (HasTags(cfg) ==> SharesTag(m, cfg.tags.value))
  }

  /** The records a practice sheet may draw: unreviewed, in the chosen subject
      (unless mixed) and carrying a chosen tag (when tags were given). */
  function Candidates(ms: seq<MistakeRecord>, cfg: PracticeConfig): (r: seq<MistakeRecord>)
    ensures SubsequenceOf(r, ms)
    ensures forall m :: m in r <==>
              m in ms && !m.isReviewed && (cfg.subject.Only? ==> m.subject == cfg.subject.subject) &&
              (HasTags(cfg) ==> exists t :: t in RecordTags(m) && t in cfg.tags.value)
    ensures forall m :: multiset(r)[m] == if Candidate(cfg, m) then multiset(ms)[m] else 0
  {
    Filter(ms, (m: MistakeRecord) => Candidate(cfg, m))
  }

  /** `s.slice(0, end)`: a negative end counts from the back. */
  function SlicePrefix<T>(s: seq<T>, end: int): (r: seq<T>)
    ensures r <= s
    ensures end >= 0 ==> |r| == if end < |s| then end else |s|
    ensures end < 0 ==> |r| == if |s| + end > 0 then |s| + end else 0
  {
    var n := if end >= 0 then (if end < |s| then end else |s|)
             else (if |s| + end > 0 then |s| + end else 0);
    s[..n]
  }

  /** The XP bonus of a practice sheet: more when it targets tags. */
  function PracticeBonus(cfg: PracticeConfig): (b: int)
    ensures b == 50 <==> HasTags(cfg)
    ensures b == 40 <==> !HasTags(cfg)
  {
    if HasTags(cfg) then 50 else 40
  }

  /** Whatever order the shuffle gives, a drawn record is a candidate of the
      notebook and at most `count` are drawn. */
  lemma PracticeDrawsCandidates(ms: seq<MistakeRecord>, cfg: PracticeConfig, shuffled: seq<MistakeRecord>)
    requires multiset(shuffled) == multiset(Candidates(ms, cfg))
    ensures var sel := SlicePrefix(shuffled, cfg.count);
            (cfg.count >= 0 ==> |sel| <= cfg.count) && |sel| <= |Candidates(ms, cfg)| &&
            forall m :: m in sel ==> m in ms && Candidate(cfg, m)
  {
    var sel := SlicePrefix(shuffled, cfg.count);
    assert |shuffled| == |multiset(shuffled)| == |Candidates(ms, cfg)|;
    forall m | m in sel ensures m in ms && Candidate(cfg, m) {
      var k :| 0 <= k < |sel| && sel[k] == m;
      assert shuffled[k] == m;
      assert m in multiset(shuffled);
      assert m in Candidates(ms, cfg);
    }
  }

  // ---------------------------------------------------------------------
  // The application state

  /** The screens of the application. */
  datatype View = List | UploadView | Detail | Practice | Report | Achievements

  /** The application's state and its handlers. `store` stands for the
      browser's record store and `savedStats` for the stored statistics. */
  class Notebook {
    var view: View
    var activeSubject: Subject
    var selectedTags: seq<string>
    var listTab: Tab
    var mistakes: seq<MistakeRecord>
    var selectedMistake: Option<MistakeRecord>
    var searchQuery: string
    var smartBuildOpen: bool
    var stats: UserStats
    var levelUpShown: bool
    var selectionMode: bool
    var selectedIds: set<string>
    var store: map<string, MistakeRecord>
    var savedStats: UserStats

    /** The level never drops below the first. */
    ghost predicate Valid()
      reads this
    {
      stats.level >= 1
    }

    /** The state before loading, with the clock read as `now`. */
    constructor (now: int, store: map<string, MistakeRecord>, savedStats: UserStats)
      ensures Valid()
      ensures view == List && activeSubject == All && selectedTags == [] && listTab == Todo
      ensures mistakes == [] && selectedMistake.None? && searchQuery == "" && !smartBuildOpen
      ensures stats == UserStats(0, 1, 0, now, 0, 0, []) && !levelUpShown
      ensures !selectionMode && selectedIds == {}
      ensures this.store == store && this.savedStats == savedStats
    {
      view := List;
      activeSubject := All;
      selectedTags := [];
      listTab := Todo;
      mistakes := [];
      selectedMistake := None;
      searchQuery := "";
      smartBuildOpen := false;
      stats := UserStats(0, 1, 0, now, 0, 0, []);
      levelUpShown := false;
      selectionMode := false;
      selectedIds := {};
      this.store := store;
      this.savedStats := savedStats;
    }

    /** The initial load: the stored records and statistics, the streak
        advanced by the days since the last visit and the visit time set to
        `now`; the new statistics are stored. */
    method Load(records: seq<MistakeRecord>, diffDays: int, now: int)
      requires savedStats.level >= 1
      requires forall m :: m in records <==> m in store.Values
      requires forall i, j :: 0 <= i < j < |records| ==> records[i].timestamp >= records[j].timestamp
      modifies this`mistakes, this`stats, this`savedStats
      ensures Valid()
      ensures mistakes == records
      ensures forall m :: m in mistakes <==> m in store.Values
      ensures stats == old(savedStats).(streak := NextStreak(old(savedStats).streak, diffDays), lastActive := now)
      ensures savedStats == stats
    {
      mistakes := records;
      stats := savedStats.(streak := NextStreak(savedStats.streak, diffDays), lastActive := now);
      savedStats := stats;
    }

    /** Gaining XP: stored, and the level-up toast shown on a level-up. */
    method AddXP(amount: int)
      requires Valid()
      modifies this`stats, this`savedStats, this`levelUpShown
      ensures Valid()
      ensures stats == GainXp(old(stats), amount).stats && savedStats == stats
      ensures levelUpShown == (old(levelUpShown) || GainXp(old(stats), amount).leveledUp)
    {
      var g := GainXp(stats, amount);
      if g.leveledUp {
        levelUpShown := true;
      }
      stats := g.stats;
      savedStats := stats;
    }

    /** New records from the upload form: put in front, stored, 10 XP each,
        and back to the to-do list. */
    method AddMistakes(newMistakes: seq<MistakeRecord>)
      requires Valid()
      modifies this`mistakes, this`store, this`stats, this`savedStats, this`levelUpShown, this`view, this`listTab
      ensures Valid()
      ensures mistakes == newMistakes + old(mistakes)
      ensures store == PutAll(old(store), newMistakes)
      ensures stats == GainXp(old(stats), |newMistakes| * 10).stats && savedStats == stats
      ensures levelUpShown == (old(levelUpShown) || GainXp(old(stats), |newMistakes| * 10).leveledUp)
      ensures view == List && listTab == Todo
    {
      mistakes := newMistakes + mistakes;
      store := PutAll(store, newMistakes);
      AddXP(|newMistakes| * 10);
      view := List;
      listTab := Todo;
    }

    /** A changed record: it replaces every record with its id and is
        stored; 20 XP when it turns a record not reviewed before into a
        reviewed one. */
    method UpdateMistake(u: MistakeRecord)
      requires Valid()
      modifies this`mistakes, this`store, this`stats, this`savedStats, this`levelUpShown
      ensures Valid()
      ensures mistakes == ReplaceById(old(mistakes), u)
      ensures store == old(store)[u.id := u]
      ensures var original := FindById(old(mistakes), u.id);
              var awarded := !(original.Some? && original.value.isReviewed) && u.isReviewed;
              if awarded then
                stats == GainXp(old(stats), 20).stats && savedStats == stats &&
                levelUpShown == (old(levelUpShown) || GainXp(old(stats), 20).leveledUp)
              else
                stats == old(stats) && savedStats == old(savedStats) && levelUpShown == old(levelUpShown)
    {
      var original := FindById(mistakes, u.id);
      mistakes := ReplaceById(mistakes, u);
      store := store[u.id := u];
      if !(original.Some? && original.value.isReviewed) && u.isReviewed {
        AddXP(20);
      }
    }

    /** The review toggle of a card: flips the record's flag through
        `UpdateMistake`, so marking it reviewed earns 20 XP; an unknown id
        does nothing. */
    method ToggleReview(id: string)
      requires Valid()
      modifies this`mistakes, this`store, this`stats, this`savedStats, this`levelUpShown
      ensures Valid()
      ensures mistakes == ToggleReviewed(old(mistakes), id)
      ensures FindById(old(mistakes), id).None? ==>
                store == old(store) && stats == old(stats) &&
                savedStats == old(savedStats) && levelUpShown == old(levelUpShown)
      ensures FindById(old(mistakes), id).Some? ==>
                var t := FindById(old(mistakes), id).value;
                store == old(store)[id := t.(isReviewed := !t.isReviewed)] &&
                if !t.isReviewed then
                  stats == GainXp(old(stats), 20).stats && savedStats == stats &&
                  levelUpShown == (old(levelUpShown) || GainXp(old(stats), 20).leveledUp)
                else
                  stats == old(stats) && savedStats == old(savedStats) && levelUpShown == old(levelUpShown)
    {
      var target := FindById(mistakes, id);
      if target.None? {
        return;
      }
      var t := target.value;
      UpdateMistake(t.(isReviewed := !t.isReviewed));
    }

    /** Deleting one record after the user confirmed: removed from the store
        and the list, the detail view closed when it showed that record. */
    method DeleteMistake(id: string, confirmed: bool)
      modifies this`mistakes, this`store, this`selectedMistake, this`view
      ensures !confirmed ==> mistakes == old(mistakes) && store == old(store) &&
                             selectedMistake == old(selectedMistake) && view == old(view)
      ensures confirmed ==> mistakes == RemoveId(old(mistakes), id) && store == old(store) - {id}
      ensures confirmed && old(selectedMistake).Some? && old(selectedMistake).value.id == id ==> selectedMistake.None?
      ensures !(old(selectedMistake).Some? && old(selectedMistake).value.id == id) ==> selectedMistake == old(selectedMistake)
      ensures confirmed ==> view == (if old(view) == Detail then List else old(view))
    {
      if confirmed {
        store := store - {id};
        mistakes := RemoveId(mistakes, id);
        if selectedMistake.Some? && selectedMistake.value.id == id {
          selectedMistake := None;
        }
        if view == Detail {
          view := List;
        }
      }
    }

    /** Clearing the mastered records: with none there is nothing to ask;
        after confirmation each one is deleted from the store in turn, and
        the list keeps exactly the records not reviewed. */
    method DeleteAllDone(confirmed: bool)
      modifies this`mistakes, this`store
      ensures var done := Reviewed(old(mistakes));
              if done != [] && confirmed then
                mistakes == Unreviewed(old(mistakes)) && store == old(store) - Ids(done)
              else
                mistakes == old(mistakes) && store == old(store)
    {
      var done := Reviewed(mistakes);
      if |done| == 0 || !confirmed {
        return;
      }
      var i := 0;
      while i < |done|
        invariant 0 <= i <= |done|
        invariant mistakes == old(mistakes)
        invariant store == old(store) - Ids(done[..i])
      {
        IdsStep(done, i);
        store := store - {done[i].id};
        i := i + 1;
      }
      assert done[..i] == done;
      mistakes := Unreviewed(mistakes);
    }

    /** The dialog's confirm button: draws the first `count` records of the
        shuffled candidates; with none it changes nothing, otherwise it
        selects them, awards the bonus and opens the practice sheet. */
    method StartSmartPractice(cfg: PracticeConfig, shuffled: seq<MistakeRecord>) returns (started: bool)
      requires Valid()
      requires multiset(shuffled) == multiset(Candidates(mistakes, cfg))
      modifies this`selectedIds, this`stats, this`savedStats, this`levelUpShown, this`view, this`smartBuildOpen
      ensures Valid()
      ensures started <==> SlicePrefix(shuffled, cfg.count) != []
      ensures started ==> selectedIds == Ids(SlicePrefix(shuffled, cfg.count)) &&
                          stats == GainXp(old(stats), PracticeBonus(cfg)).stats && savedStats == stats &&
                          levelUpShown == (old(levelUpShown) || GainXp(old(stats), PracticeBonus(cfg)).leveledUp) &&
                          view == Practice && !smartBuildOpen
      ensures !started ==> selectedIds == old(selectedIds) && stats == old(stats) &&
                           savedStats == old(savedStats) && levelUpShown == old(levelUpShown) &&
                           view == old(view) && smartBuildOpen == old(smartBuildOpen)
    {
      var selected := SlicePrefix(shuffled, cfg.count);
      if |selected| == 0 {
        return false;
      }
      selectedIds := Ids(selected);
      AddXP(PracticeBonus(cfg));
      view := Practice;
      smartBuildOpen := false;
      started := true;
    }

    /** A subject button: the tag selection is cleared with it. */
    method SetSubject(s: Subject)
      modifies this`activeSubject, this`selectedTags
      ensures activeSubject == s
      ensures selectedTags == if s == old(activeSubject) then old(selectedTags) else []
    {
      if s != activeSubject {
        selectedTags := [];
      }
      activeSubject := s;
    }

    /** A tag of the cloud clicked. */
    method ClickTag(tag: string)
      modifies this`selectedTags
      ensures selectedTags == ToggleTag(old(selectedTags), tag)
    {
      selectedTags := ToggleTag(selectedTags, tag);
    }

    /** The close button of the selection bar: selection mode ends and the
        selection is emptied. */
    method LeaveSelectionMode()
      modifies this`selectionMode, this`selectedIds
      ensures !selectionMode && selectedIds == {}
    {
      selectionMode := false;
      selectedIds := {};
    }

    /** The practice sheet's back button: the list returns and the
        selection is emptied. */
    method LeavePractice()
      modifies this`view, this`selectedIds
      ensures view == List && selectedIds == {}
    {
      view := List;
      selectedIds := {};
    }

    /** The fill of the header's progress bar for the current statistics;
        the level invariant keeps the threshold positive. */
    function HeaderProgress(): (p: real)
      requires Valid()
      reads this
      ensures p <= 100.0
      ensures stats.xp >= 0 ==> p >= 0.0
      ensures p == 100.0 <==> stats.xp >= 200 * stats.level
    {
      Progress(stats.xp, stats.level)
    }

    /** A card clicked: in selection mode its id is toggled, otherwise its
        detail view opens. */
    method CardClicked(m: MistakeRecord)
      modifies this`selectedIds, this`selectedMistake, this`view
      ensures selectionMode ==> selectedIds == SetToggle(old(selectedIds), m.id) &&
                                selectedMistake == old(selectedMistake) && view == old(view)
      ensures !selectionMode ==> selectedIds == old(selectedIds) &&
                                 selectedMistake == Some(m) && view == Detail
    {
      if selectionMode {
        selectedIds := SetToggle(selectedIds, m.id);
      } else {
        selectedMistake := Some(m);
        view := Detail;
      }
    }

    /** The cards the list shows now. */
    function Filtered(): (r: seq<MistakeRecord>)
      reads this
      ensures r == FilteredMistakes(mistakes, listTab, activeSubject, searchQuery, selectedTags)
      ensures SubsequenceOf(r, mistakes)
      ensures forall m :: m in r <==> m in mistakes && Shown(m, listTab, activeSubject, searchQuery, selectedTags)
    {
      FilteredMistakes(mistakes, listTab, activeSubject, searchQuery, selectedTags)
    }

    /** The tag cloud shown now. */
    function TagCloud(): (r: seq<string>)
      reads this
      ensures r == AvailableTags(mistakes, activeSubject)
      ensures StrictlySorted(r)
      ensures forall t :: t in r <==> exists m :: m in mistakes && InSubject(activeSubject, m) && t in RecordTags(m)
    {
      AvailableTags(mistakes, activeSubject)
    }

    /** The records handed to the practice sheet: the selected ones, in list
        order. */
    function PracticeItems(): (r: seq<MistakeRecord>)
      reads this
      ensures SubsequenceOf(r, mistakes)
      ensures forall m :: m in r <==> m in mistakes && m.id in selectedIds
      ensures forall m :: multiset(r)[m] == if m.id in selectedIds then multiset(mistakes)[m] else 0
    {
      var ids := selectedIds;
      Filter(mistakes, (m: MistakeRecord) => m.id in ids)
    }
  }
}
