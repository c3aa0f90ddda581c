/** `JobDatabaseService` (app/services/job_database.py): role and experience-level
    filtering over the rows of the job dataset. Loading the file with pandas is not part of
    this model: the constructor receives the rows it would have read, or nothing. The pandas
    masks become filters over the row sequence. */
module JobDatabase {
  import opened Text
  import opened Wrappers
  import opened Order

  /** A `Skills` (or other list-like) cell: a string, a list of strings, or anything else
      (a number, NaN, ...). */
  datatype Field = FText(s: string) | FList(items: seq<string>) | FOther

  /** One job description. `Title` and `ExperienceLevel` are taken to be strings in
      every row. */
  datatype Row = Row(title: string, experience: string, skills: Field)

  /** The experience-level variations of lines 85-93, in declaration order. */
  const ExpMappings: seq<(string, seq<string>)> := [
    ("intern", ["intern", "fresher", "entry", "entry-level", "trainee"]),
    ("entry", ["entry", "fresher", "entry-level"]),
    ("junior", ["junior"]),
    ("mid", ["mid", "mid-level", "mid-senior"]),
    ("senior", ["senior", "senior-level"]),
    ("lead", ["lead"]),
    ("experienced", ["experienced"])
  ]

  // ---------------------------------------------------------------------------
  // Masks

  /** `str.contains(pattern, case=False)` on one cell, with the pattern taken literally. */
  predicate ContainsIgnoringCase(cell: string, pattern: string)
  {
    Contains(Lower(cell), Lower(pattern))
  }

  /** The rows whose title contains the stripped role (lines 72-73), in dataset order. */
  function RoleRows(rows: seq<Row>, role: string): (r: seq<Row>)
    ensures forall x :: x in r <==> x in rows && ContainsIgnoringCase(x.title, Strip(role))
  {
    if rows == [] then [] else
      RoleRows(rows[..|rows| - 1], role)
      + (if ContainsIgnoringCase(rows[|rows| - 1].title, Strip(role)) then [rows[|rows| - 1]] else [])
  }

  /** `any(v in exp_lower for v in variations)`. */
  predicate AnyOccurs(variations: seq<string>, expLower: string)
  {
    exists v :: v in variations && Contains(expLower, v)
  }

  /** The variations the loop of lines 99-102 adds: those of the first key with a
      variation occurring in `expLower`, or none. */
  function Variations(mappings: seq<(string, seq<string>)>, expLower: string): seq<string>
  {
    if mappings == [] then []
    else if AnyOccurs(mappings[0].1, expLower) then mappings[0].1
    else Variations(mappings[1..], expLower)
  }

  /** `search_terms`: the stripped level, then the variations of at most one key. */
  function SearchTerms(exp: string): seq<string>
  {
    [Strip(exp)] + Variations(ExpMappings, Lower(Strip(exp)))
  }

  /** The experience mask of lines 105-107: the level cell contains some search term,
      case-insensitively. */
  predicate LevelMatches(row: Row, terms: seq<string>)
  {
    exists t :: t in terms && ContainsIgnoringCase(row.experience, t)
  }

  function LevelRows(rows: seq<Row>, terms: seq<string>): (r: seq<Row>)
    ensures forall x :: x in r <==> x in rows && LevelMatches(x, terms)
  {
    if rows == [] then [] else
      LevelRows(rows[..|rows| - 1], terms)
      + (if LevelMatches(rows[|rows| - 1], terms) then [rows[|rows| - 1]] else [])
  }

  /** `filtered_df` (lines 79-122): the role rows, narrowed to the experience level when
      one is given and some role row has it. */
  function Chosen(rows: seq<Row>, role: string, exp: Option<string>): seq<Row>
  {
    if exp.None? || exp.value == [] then RoleRows(rows, role)
    else if LevelRows(RoleRows(rows, role), SearchTerms(exp.value)) != [] then
      LevelRows(RoleRows(rows, role), SearchTerms(exp.value))
    else RoleRows(rows, role)
  }

  // ---------------------------------------------------------------------------
  // Skills cells

  /** The skills one cell contributes in `get_skills_for_role` (lines 131-145). A '['
      string goes to `json`, which stands for `json.loads` (None when it raises, in which
      case the row is skipped). A semicolon list keeps its empty parts here. */
  function CellSkills(f: Field, json: string -> Option<seq<string>>): seq<string>
  {
    match f
    case FText(s) =>
      if StartsWith(s, "[") then (if json(s).Some? then json(s).value else [])
      else StrippedParts(SplitOn(s, ';'))
    case FList(items) => items
    case FOther => []
  }

  function StrippedParts(parts: seq<string>): (r: seq<string>)
    ensures |r| == |parts|
    ensures forall i :: 0 <= i < |parts| ==> r[i] == Strip(parts[i])
  {
    if parts == [] then [] else StrippedParts(parts[..|parts| - 1]) + [Strip(parts[|parts| - 1])]
  }

  /** `all_skills` after the loop of lines 129-145. */
  function AllSkills(rows: seq<Row>, json: string -> Option<seq<string>>): seq<string>
  {
    if rows == [] then [] else AllSkills(rows[..|rows| - 1], json) + CellSkills(rows[|rows| - 1].skills, json)
  }

  /** `_parse_field` (lines 200-216): a list unchanged, a '[' string through `json`
      (nothing when it raises), any other string split on ';' with the blank parts
      dropped, anything else nothing. */
  function ParseField(f: Field, json: string -> Option<seq<string>>): (r: seq<string>)
    ensures f.FList? ==> r == f.items
    ensures f.FOther? ==> r == []
    ensures f.FText? && !StartsWith(f.s, "[") ==> forall x :: x in r ==> x != []
  {
    match f
    case FText(s) =>
      if StartsWith(s, "[") then (if json(s).Some? then json(s).value else [])
      else NonBlankStripped(SplitOn(s, ';'))
    case FList(items) => items
    case FOther => []
  }

  /** Every skill `_parse_field` takes from a plain string is a non-empty piece between
      semicolons, with no space at either end. */
  lemma ParseFieldPieces(s: string, json: string -> Option<seq<string>>)
    requires !StartsWith(s, "[")
    ensures forall x :: x in ParseField(FText(s), json) ==> x != [] && NoEdgeSpace(x) && ';' !in x
  {
    NonBlankStrippedPieces(s, ';');
  }

  /** `_parse_field` on a plain string keeps exactly the non-blank pieces, stripped: a
      piece is reported when its stripped form is not empty. */
  lemma ParseFieldKeepsPieces(s: string, json: string -> Option<seq<string>>, p: string)
    requires !StartsWith(s, "[") && p in SplitOn(s, ';') && Strip(p) != []
    ensures Strip(p) in ParseField(FText(s), json)
  {
    NonBlankStrippedKeeps(SplitOn(s, ';'), p);
  }

  // ---------------------------------------------------------------------------
  // Properties of the filters

  /** At most one key contributes its variations: the first whose variations occur. */
  lemma {:induction false} VariationsFirstKey(mappings: seq<(string, seq<string>)>, expLower: string)
    ensures Variations(mappings, expLower) == [] ==>
      forall k :: 0 <= k < |mappings| ==> !AnyOccurs(mappings[k].1, expLower)
    ensures Variations(mappings, expLower) != [] ==>
      exists k :: 0 <= k < |mappings| && Variations(mappings, expLower) == mappings[k].1
        && AnyOccurs(mappings[k].1, expLower)
        && forall j :: 0 <= j < k ==> !AnyOccurs(mappings[j].1, expLower)
  {
    if mappings != [] && !AnyOccurs(mappings[0].1, expLower) {
      var rest := mappings[1..];
      VariationsFirstKey(rest, expLower);
      assert forall k :: 0 <= k < |rest| ==> rest[k] == mappings[k + 1];
      if Variations(rest, expLower) != [] {
        var k :| 0 <= k < |rest| && Variations(rest, expLower) == rest[k].1
          && AnyOccurs(rest[k].1, expLower)
          && forall j :: 0 <= j < k ==> !AnyOccurs(rest[j].1, expLower);
        assert forall j :: 0 <= j < k + 1 ==> !AnyOccurs(mappings[j].1, expLower) by {
          forall j | 0 <= j < k + 1 ensures !AnyOccurs(mappings[j].1, expLower) {
            if j > 0 {
              assert mappings[j] == rest[j - 1];
            }
          }
        }
      } else {
        forall k | 0 <= k < |mappings| ensures !AnyOccurs(mappings[k].1, expLower) {
          if k > 0 {
            assert mappings[k] == rest[k - 1];
          }
        }
      }
    }
  }

  /** The chosen rows all match the role; when a level is given and some role row has
      it, they are exactly the role rows that have it, otherwise all role rows. */
  lemma ChosenMeaning(rows: seq<Row>, role: string, exp: Option<string>)
    ensures forall x :: x in Chosen(rows, role, exp) ==> x in rows && ContainsIgnoringCase(x.title, Strip(role))
    ensures exp.Some? && exp.value != [] && (exists x :: x in RoleRows(rows, role) && LevelMatches(x, SearchTerms(exp.value))) ==>
      forall x :: x in Chosen(rows, role, exp) <==>
        x in rows && ContainsIgnoringCase(x.title, Strip(role)) && LevelMatches(x, SearchTerms(exp.value))
    ensures (exp.None? || exp.value == [] || forall x :: x in RoleRows(rows, role) ==> !LevelMatches(x, SearchTerms(exp.value))) ==>
      Chosen(rows, role, exp) == RoleRows(rows, role)
  {
    if exp.Some? && exp.value != [] {
      var l := LevelRows(RoleRows(rows, role), SearchTerms(exp.value));
      if l != [] {
        assert l[0] in l;
      }
    }
  }

  // ---------------------------------------------------------------------------
  // The service object

  class JobDatabaseService {
    /** `self.df`: the rows, or None when the dataset could not be loaded. */
    var df: Option<seq<Row>>

    /** `__init__` with `_load_data`'s outcome. */
    constructor (data: Option<seq<Row>>)
      ensures df == data
    {
      df := data;
    }

    /** `is_available` (lines 41-43): loaded and not empty. */
    predicate IsAvailable()
      reads this
    {
      df.Some? && df.value != []
    }

    /** The skills `get_skills_for_role` reports, as a set. */
    ghost function RoleSkills(role: string, exp: Option<string>, json: string -> Option<seq<string>>): set<string>
      reads this
    {
      if IsAvailable() then set x | x in AllSkills(Chosen(df.value, role, exp), json) else {}
    }

    /** `get_available_roles` (lines 45-50): the distinct titles, sorted. */
    method GetAvailableRoles() returns (roles: seq<string>)
      ensures !IsAvailable() ==> roles == []
      ensures StrictlySorted(roles)
      ensures IsAvailable() ==> forall t :: t in roles <==> exists x :: x in df.value && x.title == t
    {
      if !IsAvailable() {
        return [];
      }
      var titles := set x | x in df.value :: x.title;
      roles := SortedList(titles);
    }

    /** `get_skills_for_role` (lines 52-150). */
    method GetSkillsForRole(role: string, exp: Option<string>, json: string -> Option<seq<string>>)
      returns (skills: seq<string>)
      ensures !IsAvailable() ==> skills == []
      ensures IsAvailable() && RoleRows(df.value, role) == [] ==> skills == []
      ensures Distinct(skills) && |skills| == |RoleSkills(role, exp, json)|
      ensures forall y :: y in skills <==> y in RoleSkills(role, exp, json)
    {
      if !IsAvailable() {
        return [];
      }
      var rows := df.value;
      var roleRows := RoleRows(rows, role);
      if roleRows == [] {
        return [];
      }
      var filtered := roleRows;
      if exp.Some? && exp.value != [] {
        var terms := SearchTermsOf(exp.value);
        var combined := LevelRows(roleRows, terms);
        if combined != [] {
          filtered := combined;
        }
      }
      assert filtered == Chosen(rows, role, exp);
      if filtered == [] {
        return [];
      }
      var all := CollectSkills(filtered, json);
      skills := ListOfSet(set x | x in all);
    }

    /** `search_similar_roles` (lines 218-226). `closeMatches` stands for difflib's
        `get_close_matches(role, titles, n=limit, cutoff=0.6)`. */
    method SearchSimilarRoles(role: string, limit: int,
                              closeMatches: (string, seq<string>, int) -> seq<string>)
      returns (matches: seq<string>)
      ensures !IsAvailable() ==> matches == []
      ensures IsAvailable() ==> matches == closeMatches(role, UniqueTitles(df.value), limit)
    {
      if !IsAvailable() {
        return [];
      }
      matches := closeMatches(role, UniqueTitles(df.value), limit);
    }
  }

  /** `df['Title'].unique().tolist()`: each title once, in order of first appearance. */
  function UniqueTitles(rows: seq<Row>): (r: seq<string>)
    ensures Distinct(r)
    ensures forall t :: t in r <==> exists x :: x in rows && x.title == t
  {
    if rows == [] then [] else
      var prefix := UniqueTitles(rows[..|rows| - 1]);
      var last := rows[|rows| - 1];
      assert forall x :: x in rows <==> x in rows[..|rows| - 1] || x == last by {
        assert rows == rows[..|rows| - 1] + [last];
      }
      if last.title in prefix then prefix else prefix + [last.title]
  }

  /** The titles come in order of first appearance: a title listed before another occurs
      in the rows before every row holding the other. */
  ghost predicate FirstSeenOrder(rows: seq<Row>, r: seq<string>)
  {
    forall i, j, q :: 0 <= i < j < |r| && 0 <= q < |rows| && rows[q].title == r[j] ==>
      exists p :: 0 <= p < q && rows[p].title == r[i]
  }

  /** `unique()` lists the titles in order of first appearance. */
  lemma {:induction false} UniqueTitlesFirstSeen(rows: seq<Row>)
    ensures FirstSeenOrder(rows, UniqueTitles(rows))
  {
    if rows != [] {
      var pre, last := rows[..|rows| - 1], rows[|rows| - 1];
      UniqueTitlesFirstSeen(pre);
      var prefix, r := UniqueTitles(pre), UniqueTitles(rows);
      forall i, j, q | 0 <= i < j < |r| && 0 <= q < |rows| && rows[q].title == r[j]
        ensures exists p :: 0 <= p < q && rows[p].title == r[i]
      {
        assert r == prefix || r == prefix + [last.title];
        assert i < |prefix| && r[i] == prefix[i];
        if q < |pre| {
          assert pre[q] == rows[q] && pre[q] in pre;
          assert r[j] in prefix;
          assert j < |prefix| && r[j] == prefix[j] && pre[q].title == prefix[j];
          assert exists p :: 0 <= p < q && pre[p].title == prefix[i];
          var p :| 0 <= p < q && pre[p].title == prefix[i];
          assert rows[p] == pre[p];
        } else {
          assert prefix[i] in prefix;
          var x :| x in pre && x.title == prefix[i];
          var p :| 0 <= p < |pre| && pre[p] == x;
          assert rows[p] == x;
        }
      }
    }
  }

  /** The loop of lines 96-102, with its `break`. */
  method SearchTermsOf(exp: string) returns (terms: seq<string>)
    ensures terms == SearchTerms(exp)
  {
    var expNormalized := Strip(exp);
    var expLower := Lower(expNormalized);
    terms := [expNormalized];
    var i := 0;
    while i < |ExpMappings|
      invariant 0 <= i <= |ExpMappings|
      invariant terms == [expNormalized]
      invariant Variations(ExpMappings[i..], expLower) == Variations(ExpMappings, expLower)
    {
      assert ExpMappings[i..][1..] == ExpMappings[i + 1..];
      if AnyOccurs(ExpMappings[i].1, expLower) {
        terms := terms + ExpMappings[i].1;
        return;
      }
      i := i + 1;
    }
  }

  /** The loop of lines 128-145. */
  method CollectSkills(rows: seq<Row>, json: string -> Option<seq<string>>) returns (all: seq<string>)
    ensures all == AllSkills(rows, json)
  {
    all := [];
    for i := 0 to |rows|
      invariant all == AllSkills(rows[..i], json)
    {
      assert rows[..i + 1][..i] == rows[..i];
      var skills := CellSkillsOf(rows[i].skills, json);
      all := all + skills;
    }
    assert rows[..|rows|] == rows;
  }

  /** The body of that loop for one cell. */
  method CellSkillsOf(f: Field, json: string -> Option<seq<string>>) returns (skills: seq<string>)
    ensures skills == CellSkills(f, json)
  {
    match f {
      case FText(s) =>
        if StartsWith(s, "[") {
          var parsed := json(s);
          if parsed.None? {
            return [];
          }
          skills := parsed.value;
        } else {
          var parts := SplitOn(s, ';');
          skills := [];
          for j := 0 to |parts|
            invariant skills == StrippedParts(parts[..j])
          {
            assert parts[..j + 1][..j] == parts[..j];
            skills := skills + [Strip(parts[j])];
          }
          assert parts[..|parts|] == parts;
        }
      case FList(items) =>
        skills := items;
      case FOther =>
        skills := [];
    }
  }

  /** A request with a level that no role row meets reports the skills of every role row:
      the experience filter only narrows, and never empties, the role match. */
  lemma FallbackToRoleRows(rows: seq<Row>, role: string, exp: Option<string>)
    requires exp.Some? && exp.value != []
    requires forall x :: x in RoleRows(rows, role) ==> !LevelMatches(x, SearchTerms(exp.value))
    ensures Chosen(rows, role, exp) == RoleRows(rows, role)
  {
    ChosenMeaning(rows, role, exp);
  }
}
