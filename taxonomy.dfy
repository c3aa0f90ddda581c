/** The skill taxonomy: the canonical skill names loaded from the job dataset, the
    alias table and the case- and whitespace-insensitive lookup built from both
    (app/services/skill_taxonomy.py). */
module Taxonomy {
  import opened Text
  import opened Wrappers

  /** A non-empty string; every key and every value of the alias table is one. */
  type Name = s: string | |s| > 0 witness "a"

  // ---------------------------------------------------------------------------
  // SKILL_ALIASES, group by group in declaration order (lines 27-196)

  // JavaScript variants
  const JavaScriptAliases: seq<(Name, Name)> := [
    ("js", "JavaScript"), ("javascript", "JavaScript"), ("es6", "JavaScript"),
    ("es2015", "JavaScript"), ("ecmascript", "JavaScript")
  ]

  // TypeScript
  const TypeScriptAliases: seq<(Name, Name)> := [
    ("ts", "TypeScript"), ("typescript", "TypeScript")
  ]

  // Python
  const PythonAliases: seq<(Name, Name)> := [
    ("python3", "Python"), ("python 3", "Python"), ("py", "Python")
  ]

  // Kubernetes
  const KubernetesAliases: seq<(Name, Name)> := [
    ("k8s", "Kubernetes"), ("kube", "Kubernetes")
  ]

  // Docker
  const DockerAliases: seq<(Name, Name)> := [
    ("containerization", "Docker"), ("containers", "Docker")
  ]

  // Databases
  const DatabaseAliases1: seq<(Name, Name)> := [
    ("postgres", "PostgreSQL"), ("postgresql", "PostgreSQL"), ("psql", "PostgreSQL"),
    ("mongo", "MongoDB"), ("mongodb", "MongoDB"), ("mysql", "MySQL")
  ]
  const DatabaseAliases2: seq<(Name, Name)> := [
    ("mssql", "SQL Server"), ("sql server", "SQL Server")
  ]
  const DatabaseAliases: seq<(Name, Name)> := DatabaseAliases1 + DatabaseAliases2

  // Cloud
  const CloudAliases: seq<(Name, Name)> := [
    ("amazon web services", "AWS"), ("aws", "AWS"), ("google cloud platform", "GCP"),
    ("google cloud", "GCP"), ("gcp", "GCP"), ("azure", "Azure"),
    ("microsoft azure", "Azure")
  ]

  // Frameworks
  const FrameworkAliases1: seq<(Name, Name)> := [
    ("reactjs", "React"), ("react.js", "React"), ("react js", "React"),
    ("vuejs", "Vue.js"), ("vue", "Vue.js"), ("vue.js", "Vue.js")
  ]
  const FrameworkAliases2: seq<(Name, Name)> := [
    ("angularjs", "Angular"), ("angular.js", "Angular"), ("angular", "Angular"),
    ("nextjs", "Next.js"), ("next.js", "Next.js"), ("nodejs", "Node.js")
  ]
  const FrameworkAliases3: seq<(Name, Name)> := [
    ("node.js", "Node.js"), ("node", "Node.js"), ("expressjs", "Express.js"),
    ("express.js", "Express.js"), ("express", "Express.js"), ("fastapi", "FastAPI")
  ]
  const FrameworkAliases4: seq<(Name, Name)> := [
    ("django", "Django"), ("flask", "Flask"), ("spring boot", "Spring Boot"),
    ("springboot", "Spring Boot")
  ]
  const FrameworkAliases: seq<(Name, Name)> := FrameworkAliases1 + FrameworkAliases2 + FrameworkAliases3 + FrameworkAliases4

  // APIs
  const ApiAliases: seq<(Name, Name)> := [
    ("rest api", "REST APIs"), ("rest apis", "REST APIs"), ("restful", "REST APIs"),
    ("restful api", "REST APIs"), ("graphql", "GraphQL")
  ]

  // ML/AI
  const MlAiAliases1: seq<(Name, Name)> := [
    ("machine learning", "Machine Learning"), ("ml", "Machine Learning"), ("deep learning", "Deep Learning"),
    ("dl", "Deep Learning"), ("artificial intelligence", "AI"), ("ai", "AI")
  ]
  const MlAiAliases2: seq<(Name, Name)> := [
    ("natural language processing", "NLP"), ("nlp", "NLP")
  ]
  const MlAiAliases: seq<(Name, Name)> := MlAiAliases1 + MlAiAliases2

  // Version Control
  const VersionControlAliases: seq<(Name, Name)> := [
    ("git", "Git"), ("github", "GitHub"), ("gitlab", "GitLab"),
    ("bitbucket", "Bitbucket")
  ]

  // CI/CD
  const CiCdAliases: seq<(Name, Name)> := [
    ("ci/cd", "CI/CD"), ("cicd", "CI/CD"), ("continuous integration", "CI/CD"),
    ("jenkins", "Jenkins"), ("github actions", "GitHub Actions")
  ]

  // Languages
  const LanguageAliases1: seq<(Name, Name)> := [
    ("c#", "C#"), ("csharp", "C#"), ("c sharp", "C#"),
    ("c++", "C++"), ("cpp", "C++"), ("cplusplus", "C++")
  ]
  const LanguageAliases2: seq<(Name, Name)> := [
    ("golang", "Go"), ("go", "Go"), ("rust", "Rust"),
    ("java", "Java"), ("kotlin", "Kotlin"), ("swift", "Swift")
  ]
  const LanguageAliases3: seq<(Name, Name)> := [
    ("ruby", "Ruby"), ("php", "PHP"), ("r", "R"),
    ("scala", "Scala")
  ]
  const LanguageAliases: seq<(Name, Name)> := LanguageAliases1 + LanguageAliases2 + LanguageAliases3

  // Testing
  const TestingAliases: seq<(Name, Name)> := [
    ("unit testing", "Unit Testing"), ("unittest", "Unit Testing"), ("pytest", "Pytest"),
    ("jest", "Jest"), ("mocha", "Mocha"), ("selenium", "Selenium"),
    ("cypress", "Cypress")
  ]

  // Data
  const DataAliases1: seq<(Name, Name)> := [
    ("pandas", "Pandas"), ("numpy", "NumPy"), ("scipy", "SciPy"),
    ("tensorflow", "TensorFlow"), ("tf", "TensorFlow"), ("pytorch", "PyTorch")
  ]
  const DataAliases2: seq<(Name, Name)> := [
    ("torch", "PyTorch"), ("scikit-learn", "Scikit-learn"), ("sklearn", "Scikit-learn")
  ]
  const DataAliases: seq<(Name, Name)> := DataAliases1 + DataAliases2

  // DevOps
  const DevOpsAliases: seq<(Name, Name)> := [
    ("terraform", "Terraform"), ("ansible", "Ansible"), ("puppet", "Puppet"),
    ("chef", "Chef")
  ]

  // Messaging
  const MessagingAliases: seq<(Name, Name)> := [
    ("kafka", "Apache Kafka"), ("rabbitmq", "RabbitMQ"), ("redis", "Redis")
  ]

  // Others
  const OtherAliases1: seq<(Name, Name)> := [
    ("html5", "HTML"), ("html", "HTML"), ("css3", "CSS"),
    ("css", "CSS"), ("sass", "SASS"), ("scss", "SASS")
  ]
  const OtherAliases2: seq<(Name, Name)> := [
    ("less", "LESS"), ("tailwind", "Tailwind CSS"), ("tailwindcss", "Tailwind CSS"),
    ("bootstrap", "Bootstrap"), ("jquery", "jQuery"), ("webpack", "Webpack")
  ]
  const OtherAliases3: seq<(Name, Name)> := [
    ("vite", "Vite"), ("babel", "Babel"), ("eslint", "ESLint"),
    ("prettier", "Prettier"), ("linux", "Linux"), ("unix", "Unix")
  ]
  const OtherAliases4: seq<(Name, Name)> := [
    ("bash", "Bash"), ("shell", "Shell Scripting"), ("powershell", "PowerShell")
  ]
  const OtherAliases: seq<(Name, Name)> := OtherAliases1 + OtherAliases2 + OtherAliases3 + OtherAliases4

  const SkillAliases: seq<(Name, Name)> :=
    JavaScriptAliases + TypeScriptAliases + PythonAliases + KubernetesAliases
    + DockerAliases + DatabaseAliases + CloudAliases + FrameworkAliases
    + ApiAliases + MlAiAliases + VersionControlAliases + CiCdAliases
    + LanguageAliases + TestingAliases + DataAliases + DevOpsAliases
    + MessagingAliases + OtherAliases

  // ---------------------------------------------------------------------------
  // The dataset and the two lookup structures

  /** One element of a job's `Skills` list. */
  datatype Entry = Str(s: string) | NotAString

  /** A job's `Skills` field: a list (an absent field reads as the empty list) or any
      other JSON value. */
  datatype SkillsField = Entries(entries: seq<Entry>) | NotAList

  /** One element of the parsed dataset, as the loading loop sees it: an object with its
      `Skills` field, or anything else, on which `job.get` raises. A top-level JSON object
      is iterated key by key, so each of its keys is such an element. */
  datatype Job = Job(skills: SkillsField) | NotAJob

  /** The fields of the elements the loop gets through before an element raises. */
  function Readable(jobs: seq<Job>): (r: seq<SkillsField>)
    ensures |r| <= |jobs|
    ensures forall i :: 0 <= i < |r| ==> jobs[i] == Job(r[i])
    ensures |r| < |jobs| ==> jobs[|r|].NotAJob?
    ensures |r| == |jobs| <==> forall i :: 0 <= i < |jobs| ==> jobs[i].Job?
  {
    if jobs == [] || jobs[0].NotAJob? then []
    else
      assert forall i :: 1 <= i < |jobs| ==> jobs[1..][i - 1] == jobs[i];
      [jobs[0].skills] + Readable(jobs[1..])
  }

  /** `_skills_set` and `_skills_lower_map` (lowercase key to canonical name). */
  datatype Tables = Tables(skills: set<string>, lower: map<string, string>)

  /** A dataset entry that is a string with something besides whitespace is added,
      stripped, to the set and under its lowercase form to the map. */
  function AddEntry(t: Tables, e: Entry): Tables
  {
    if e.Str? && Strip(e.s) != [] then
      var canonical := Strip(e.s);
      Tables(t.skills + {canonical}, t.lower[Lower(canonical) := canonical])
    else t
  }

  function AddEntries(t: Tables, es: seq<Entry>): Tables
  {
    if es == [] then t else AddEntry(AddEntries(t, es[..|es| - 1]), es[|es| - 1])
  }

  function AddJob(t: Tables, f: SkillsField): Tables
  {
    if f.Entries? then AddEntries(t, f.entries) else t
  }

  function AddJobs(t: Tables, jobs: seq<SkillsField>): Tables
  {
    if jobs == [] then t else AddJob(AddJobs(t, jobs[..|jobs| - 1]), jobs[|jobs| - 1])
  }

  /** An alias always (re)binds its lowercase key; its canonical name joins the set, with
      its own lowercase key, only when the set does not hold it yet. */
  function AddAlias(t: Tables, a: (Name, Name)): Tables
  {
    var lower := t.lower[Lower(a.0) := a.1];
    if a.1 !in t.skills then Tables(t.skills + {a.1}, lower[Lower(a.1) := a.1])
    else Tables(t.skills, lower)
  }

  function AddAliases(t: Tables, aliases: seq<(Name, Name)>): Tables
  {
    if aliases == [] then t
    else AddAlias(AddAliases(t, aliases[..|aliases| - 1]), aliases[|aliases| - 1])
  }

  /** `_load_skills` over the parsed dataset (`None` when the file is missing or cannot be
      parsed, in which case not even the aliases are loaded). An element that raises ends
      the `try`: the skills read before it stay, and the alias pass is skipped. */
  function Load(data: Option<seq<Job>>, aliases: seq<(Name, Name)>): Tables
  {
    if data.None? then Tables({}, map[])
    else
      var read := AddJobs(Tables({}, map[]), Readable(data.value));
      if |Readable(data.value)| == |data.value| then AddAliases(read, aliases) else read
  }

  /** What loading always establishes: every value of the map is a known canonical name,
      every canonical name is reachable through its lowercase form, and the empty string
      is neither a name nor a key. */
  predicate Consistent(t: Tables)
  {
    && "" !in t.skills
    && "" !in t.lower
    && (forall k :: k in t.lower ==> t.lower[k] in t.skills)
    && (forall c {:trigger Lower(c)} :: c in t.skills ==> Lower(c) in t.lower)
  }

  /** Alias entries never disagree: entries with the same lowercase key have the same
      value, and an entry whose value is, lowercased, another entry's key has that
      entry's value. */
  predicate Coherent(aliases: seq<(Name, Name)>)
  {
    && (forall i, j :: 0 <= i < |aliases| && 0 <= j < |aliases| && Lower(aliases[i].0) == Lower(aliases[j].0) ==>
          aliases[i].1 == aliases[j].1)
    && (forall i, j :: 0 <= i < |aliases| && 0 <= j < |aliases| && Lower(aliases[j].1) == Lower(aliases[i].0) ==>
          aliases[j].1 == aliases[i].1)
  }

  lemma AddEntryConsistent(t: Tables, e: Entry)
    requires Consistent(t)
    ensures Consistent(AddEntry(t, e))
  {
    if e.Str? && Strip(e.s) != [] {
      AddNameConsistent(t, Strip(e.s), Strip(e.s));
    }
  }

  /** Binding a non-empty key to a name that joins the set keeps the tables consistent. */
  lemma AddNameConsistent(t: Tables, key: string, c: string)
    requires Consistent(t) && key != [] && c != [] && Lower(c) == Lower(key)
    ensures Consistent(Tables(t.skills + {c}, t.lower[Lower(key) := c]))
  {
    var u := Tables(t.skills + {c}, t.lower[Lower(key) := c]);
    assert |Lower(key)| == |key|;
    assert "" !in u.lower;
    assert forall k :: k in u.lower ==> u.lower[k] in u.skills;
    assert forall d {:trigger Lower(d)} :: d in u.skills ==> Lower(d) in u.lower;
  }

  /** Rebinding a non-empty key to a name already in the set keeps them consistent. */
  lemma RebindConsistent(t: Tables, key: string, c: string)
    requires Consistent(t) && key != [] && c in t.skills
    ensures Consistent(Tables(t.skills, t.lower[Lower(key) := c]))
  {
    var u := Tables(t.skills, t.lower[Lower(key) := c]);
    assert |Lower(key)| == |key|;
    assert "" !in u.lower;
    assert forall k :: k in u.lower ==> u.lower[k] in u.skills;
    assert forall d {:trigger Lower(d)} :: d in u.skills ==> Lower(d) in u.lower;
  }

  lemma AddAliasConsistent(t: Tables, a: (Name, Name))
    requires Consistent(t)
    ensures Consistent(AddAlias(t, a))
    ensures t.skills <= AddAlias(t, a).skills
  {
    if a.1 !in t.skills {
      AddNameConsistent(t, a.1, a.1);
      var u := Tables(t.skills + {a.1}, t.lower[Lower(a.1) := a.1]);
      RebindConsistent(u, a.0, a.1);
      assert AddAlias(t, a).lower == u.lower[Lower(a.0) := a.1];
    } else {
      RebindConsistent(t, a.0, a.1);
    }
  }

  lemma {:induction false} AddEntriesConsistent(t: Tables, es: seq<Entry>)
    requires Consistent(t)
    ensures Consistent(AddEntries(t, es))
    ensures t.skills <= AddEntries(t, es).skills
  {
    if es != [] {
      AddEntriesConsistent(t, es[..|es| - 1]);
      AddEntryConsistent(AddEntries(t, es[..|es| - 1]), es[|es| - 1]);
    }
  }

  lemma {:induction false} AddJobsConsistent(t: Tables, jobs: seq<SkillsField>)
    requires Consistent(t)
    ensures Consistent(AddJobs(t, jobs))
    ensures t.skills <= AddJobs(t, jobs).skills
  {
    if jobs != [] {
      var before := AddJobs(t, jobs[..|jobs| - 1]);
      AddJobsConsistent(t, jobs[..|jobs| - 1]);
      if jobs[|jobs| - 1].Entries? {
        AddEntriesConsistent(before, jobs[|jobs| - 1].entries);
      }
    }
  }

  lemma {:induction false} AddAliasesConsistent(t: Tables, aliases: seq<(Name, Name)>)
    requires Consistent(t)
    ensures Consistent(AddAliases(t, aliases))
    ensures t.skills <= AddAliases(t, aliases).skills
  {
    if aliases != [] {
      AddAliasesConsistent(t, aliases[..|aliases| - 1]);
      AddAliasConsistent(AddAliases(t, aliases[..|aliases| - 1]), aliases[|aliases| - 1]);
    }
  }

  /** The lowercase forms of the alias keys. */
  function AliasKeys(aliases: seq<(Name, Name)>): set<string>
  {
    set i | 0 <= i < |aliases| :: Lower(aliases[i].0)
  }

  /** Every key of the map is the lowercase form of its value or one of `keys`. */
  predicate KeysExplained(t: Tables, keys: set<string>)
  {
    forall k :: k in t.lower ==> Lower(t.lower[k]) == k || k in keys
  }

  lemma {:induction false} AddEntriesExplained(t: Tables, es: seq<Entry>, keys: set<string>)
    requires KeysExplained(t, keys)
    ensures KeysExplained(AddEntries(t, es), keys)
  {
    if es != [] {
      AddEntriesExplained(t, es[..|es| - 1], keys);
    }
  }

  lemma {:induction false} AddJobsExplained(t: Tables, jobs: seq<SkillsField>, keys: set<string>)
    requires KeysExplained(t, keys)
    ensures KeysExplained(AddJobs(t, jobs), keys)
  {
    if jobs != [] {
      AddJobsExplained(t, jobs[..|jobs| - 1], keys);
      if jobs[|jobs| - 1].Entries? {
        AddEntriesExplained(AddJobs(t, jobs[..|jobs| - 1]), jobs[|jobs| - 1].entries, keys);
      }
    }
  }

  lemma {:induction false} AddAliasesExplained(t: Tables, aliases: seq<(Name, Name)>, keys: set<string>)
    requires KeysExplained(t, keys)
    requires forall i :: 0 <= i < |aliases| ==> Lower(aliases[i].0) in keys
    ensures KeysExplained(AddAliases(t, aliases), keys)
  {
    if aliases != [] {
      AddAliasesExplained(t, aliases[..|aliases| - 1], keys);
    }
  }

  /** Whatever the dataset holds, the loaded tables are consistent, and every key of the
      map is the lowercase form of the name it is bound to or the lowercase form of an
      alias key. */
  lemma LoadConsistent(data: Option<seq<Job>>, aliases: seq<(Name, Name)>)
    ensures Consistent(Load(data, aliases))
    ensures KeysExplained(Load(data, aliases), AliasKeys(aliases))
  {
    if data.Some? {
      var read := AddJobs(Tables({}, map[]), Readable(data.value));
      AddJobsConsistent(Tables({}, map[]), Readable(data.value));
      AddJobsExplained(Tables({}, map[]), Readable(data.value), AliasKeys(aliases));
      AddAliasesConsistent(read, aliases);
      AddAliasesExplained(read, aliases, AliasKeys(aliases));
    }
  }

  /** An element that raises drops everything after it, and the alias pass with it. */
  lemma ErrorDropsRest(jobs: seq<Job>, rest: seq<Job>, aliases: seq<(Name, Name)>, others: seq<(Name, Name)>)
    ensures Load(Some(jobs + [NotAJob] + rest), aliases) == Load(Some(jobs + [NotAJob]), others)
  {
    ReadableStops(jobs, rest);
    var r := Readable(jobs + [NotAJob]);
    assert (jobs + [NotAJob])[|jobs|] == NotAJob;
  }

  lemma {:induction false} ReadableStops(jobs: seq<Job>, rest: seq<Job>)
    ensures Readable(jobs + [NotAJob] + rest) == Readable(jobs + [NotAJob])
  {
    if jobs != [] && jobs[0].Job? {
      assert (jobs + [NotAJob] + rest)[1..] == jobs[1..] + [NotAJob] + rest;
      assert (jobs + [NotAJob])[1..] == jobs[1..] + [NotAJob];
      ReadableStops(jobs[1..], rest);
    }
  }

  lemma {:induction false} EntryLoaded(t: Tables, es: seq<Entry>, k: nat)
    requires k < |es| && es[k].Str? && Strip(es[k].s) != []
    ensures Strip(es[k].s) in AddEntries(t, es).skills
  {
    if k < |es| - 1 {
      EntryLoaded(t, es[..|es| - 1], k);
    }
  }

  lemma {:induction false} AddEntriesGrows(t: Tables, es: seq<Entry>)
    ensures t.skills <= AddEntries(t, es).skills
  {
    if es != [] { AddEntriesGrows(t, es[..|es| - 1]); }
  }

  lemma {:induction false} AddJobsGrows(t: Tables, jobs: seq<SkillsField>)
    ensures t.skills <= AddJobs(t, jobs).skills
  {
    if jobs != [] {
      AddJobsGrows(t, jobs[..|jobs| - 1]);
      if jobs[|jobs| - 1].Entries? { AddEntriesGrows(AddJobs(t, jobs[..|jobs| - 1]), jobs[|jobs| - 1].entries); }
    }
  }

  lemma {:induction false} AddAliasesGrows(t: Tables, aliases: seq<(Name, Name)>)
    ensures t.skills <= AddAliases(t, aliases).skills
  {
    if aliases != [] { AddAliasesGrows(t, aliases[..|aliases| - 1]); }
  }

  /** Every stripped, non-blank string of the dataset is a canonical name after loading. */
  /** Every stripped, non-blank string of the dataset that the loop reaches (no element
      up to its own raises) is a canonical name after loading. */
  lemma {:induction false} DatasetSkillLoaded(data: seq<Job>, aliases: seq<(Name, Name)>, j: nat, k: nat)
    requires j < |data| && forall i :: 0 <= i <= j ==> data[i].Job?
    requires data[j].skills.Entries? && k < |data[j].skills.entries|
    requires data[j].skills.entries[k].Str? && Strip(data[j].skills.entries[k].s) != []
    ensures Strip(data[j].skills.entries[k].s) in Load(Some(data), aliases).skills
  {
    var jobs := Readable(data);
    assert j < |jobs|;
    assert jobs[j] == data[j].skills;
    var before := AddJobs(Tables({}, map[]), jobs[..j]);
    EntryLoaded(before, jobs[j].entries, k);
    assert jobs[..j + 1][..j] == jobs[..j];
    AddJobsGrows(AddJobs(Tables({}, map[]), jobs[..j + 1]), jobs[j + 1..]);
    AddJobsSplit(Tables({}, map[]), jobs[..j + 1], jobs[j + 1..]);
    assert jobs[..j + 1] + jobs[j + 1..] == jobs;
    AddAliasesGrows(AddJobs(Tables({}, map[]), jobs), aliases);
  }

  lemma {:induction false} AddJobsSplit(t: Tables, a: seq<SkillsField>, b: seq<SkillsField>)
    ensures AddJobs(t, a + b) == AddJobs(AddJobs(t, a), b)
  {
    if b != [] {
      assert (a + b)[..|a + b| - 1] == a + b[..|b| - 1];
      AddJobsSplit(t, a, b[..|b| - 1]);
    } else {
      assert a + b == a;
    }
  }

  /** After the alias pass every alias value is a canonical name. */
  lemma {:induction false} AliasValueLoaded(t: Tables, aliases: seq<(Name, Name)>, i: nat)
    requires i < |aliases|
    ensures aliases[i].1 in AddAliases(t, aliases).skills
  {
    if i < |aliases| - 1 {
      AliasValueLoaded(t, aliases[..|aliases| - 1], i);
      AddAliasesGrows(AddAliases(t, aliases[..|aliases| - 1]), [aliases[|aliases| - 1]]);
    }
  }

  // ---------------------------------------------------------------------------
  // When every skill normalizes to itself

  /** Every stripped, non-blank string in the fields is one of `names`. */
  ghost predicate NamesWithin(jobs: seq<SkillsField>, names: set<string>)
  {
    forall j, k ::
      (0 <= j < |jobs| && jobs[j].Entries? && 0 <= k < |jobs[j].entries|
       && jobs[j].entries[k].Str? && Strip(jobs[j].entries[k].s) != [])
      ==> Strip(jobs[j].entries[k].s) in names
  }

  /** No two of `names` share a lowercase form. */
  ghost predicate LowerApart(names: set<string>)
  {
    forall a, b :: a in names && b in names && Lower(a) == Lower(b) ==> a == b
  }

  /** The alias table agrees with `names`: they do not share lowercase forms, every alias
      value is one of them, and an alias key that lowercases like one of them is bound to it. */
  ghost predicate Agrees(names: set<string>, aliases: seq<(Name, Name)>)
  {
    && LowerApart(names)
    && (forall i :: 0 <= i < |aliases| ==> aliases[i].1 in names)
    && (forall i, n :: 0 <= i < |aliases| && n in names && Lower(aliases[i].0) == Lower(n) ==> aliases[i].1 == n)
  }

  /** Every canonical name is bound to itself under its lowercase form. */
  ghost predicate SelfBound(t: Tables)
  {
    forall c {:trigger Lower(c)} :: c in t.skills ==> Lower(c) in t.lower && t.lower[Lower(c)] == c
  }

  lemma AddEntrySelfBound(t: Tables, e: Entry, names: set<string>)
    requires SelfBound(t) && t.skills <= names && LowerApart(names)
    requires e.Str? && Strip(e.s) != [] ==> Strip(e.s) in names
    ensures SelfBound(AddEntry(t, e)) && AddEntry(t, e).skills <= names
  {
  }

  lemma {:induction false} AddEntriesSelfBound(t: Tables, es: seq<Entry>, names: set<string>)
    requires SelfBound(t) && t.skills <= names && LowerApart(names)
    requires forall k :: 0 <= k < |es| && es[k].Str? && Strip(es[k].s) != [] ==> Strip(es[k].s) in names
    ensures SelfBound(AddEntries(t, es)) && AddEntries(t, es).skills <= names
  {
    if es != [] {
      AddEntriesSelfBound(t, es[..|es| - 1], names);
      AddEntrySelfBound(AddEntries(t, es[..|es| - 1]), es[|es| - 1], names);
    }
  }

  lemma {:induction false} AddJobsSelfBound(t: Tables, jobs: seq<SkillsField>, names: set<string>)
    requires SelfBound(t) && t.skills <= names && LowerApart(names) && NamesWithin(jobs, names)
    ensures SelfBound(AddJobs(t, jobs)) && AddJobs(t, jobs).skills <= names
  {
    if jobs != [] {
      var n := |jobs| - 1;
      assert NamesWithin(jobs[..n], names) by {
        forall j | 0 <= j < n ensures jobs[..n][j] == jobs[j] { }
      }
      AddJobsSelfBound(t, jobs[..n], names);
      if jobs[n].Entries? {
        AddEntriesSelfBound(AddJobs(t, jobs[..n]), jobs[n].entries, names);
      }
    }
  }

  lemma AddAliasSelfBound(t: Tables, a: (Name, Name), names: set<string>)
    requires SelfBound(t) && t.skills <= names && LowerApart(names) && a.1 in names
    requires forall n :: n in names && Lower(a.0) == Lower(n) ==> a.1 == n
    ensures SelfBound(AddAlias(t, a)) && AddAlias(t, a).skills <= names
  {
  }

  lemma {:induction false} AddAliasesSelfBound(t: Tables, aliases: seq<(Name, Name)>, names: set<string>)
    requires SelfBound(t) && t.skills <= names && Agrees(names, aliases)
    ensures SelfBound(AddAliases(t, aliases)) && AddAliases(t, aliases).skills <= names
  {
    if aliases != [] {
      var n := |aliases| - 1;
      assert Agrees(names, aliases[..n]) by {
        forall i | 0 <= i < n ensures aliases[..n][i] == aliases[i] { }
      }
      AddAliasesSelfBound(t, aliases[..n], names);
      AddAliasSelfBound(AddAliases(t, aliases[..n]), aliases[n], names);
    }
  }

  /** When the dataset's names and the alias values never share a lowercase form and every
      alias key that lowercases like one of them is bound to it, each canonical name is
      bound to itself after loading. */
  lemma LoadSelfBound(data: Option<seq<Job>>, aliases: seq<(Name, Name)>, names: set<string>)
    requires data.Some? ==> NamesWithin(Readable(data.value), names)
    requires Agrees(names, aliases)
    ensures SelfBound(Load(data, aliases))
  {
    if data.Some? {
      AddJobsSelfBound(Tables({}, map[]), Readable(data.value), names);
      AddAliasesSelfBound(AddJobs(Tables({}, map[]), Readable(data.value)), aliases, names);
    }
  }

  /** Two dataset spellings of one lowercase form: the later takes the shared key, so the
      earlier, though a canonical name and an alias value, does not normalize to itself. */
  lemma CaseVariantsWin(x: string, y: string, key: Name)
    requires x != [] && Strip(x) == x && Strip(y) == y && Lower(x) == Lower(y) && Lower(key) != Lower(x)
    ensures var t := Load(Some([Job(Entries([Str(x), Str(y)]))]), [(key, x)]);
      x in t.skills && Lower(x) in t.lower && t.lower[Lower(x)] == y
  {
    var t2 := Tables({x, y}, map[Lower(x) := y]);
    CaseVariantsRead(x, y);
    var jobs := [Job(Entries([Str(x), Str(y)]))];
    assert Readable(jobs) == [Entries([Str(x), Str(y)])];
    var t3 := Tables(t2.skills, t2.lower[Lower(key) := x]);
    assert AddAliases(t2, [(key, x)]) == AddAlias(t2, (key, x)) == t3 by {
      assert [(key, x)][..0] == [];
    }
    assert t3.lower[Lower(x)] == y;
  }

  /** The dataset pass over the two spellings. */
  lemma CaseVariantsRead(x: string, y: string)
    requires x != [] && Strip(x) == x && Strip(y) == y && Lower(x) == Lower(y)
    ensures AddJobs(Tables({}, map[]), [Entries([Str(x), Str(y)])]) == Tables({x, y}, map[Lower(x) := y])
  {
    var t0 := Tables({}, map[]);
    var es := [Str(x), Str(y)];
    var t1 := Tables({x}, map[Lower(x) := x]);
    var t2 := Tables({x, y}, map[Lower(x) := y]);
    assert AddEntries(t0, es) == t2 by {
      assert es[..1] == [es[0]] && es[..1][..0] == [];
      assert AddEntries(t0, es[..1]) == AddEntry(t0, es[0]) == t1;
      assert t1.lower[Lower(y) := y] == t2.lower;
      assert AddEntry(t1, es[1]) == t2;
    }
    assert AddJobs(t0, [Entries(es)]) == t2 by {
      assert [Entries(es)][..0] == [];
    }
  }

  /** A dataset name whose lowercase form is an alias key with another value is a canonical
      name, yet it normalizes to the alias value. */
  lemma AliasShadowsName(n: string, key: Name, v: Name)
    requires n != [] && Strip(n) == n && Lower(key) == Lower(n) && v != n && Lower(v) != Lower(n)
    ensures var t := Load(Some([Job(Entries([Str(n)]))]), [(key, v)]);
      n in t.skills && Lower(n) in t.lower && t.lower[Lower(n)] == v
  {
    var t0 := Tables({}, map[]);
    var t1 := Tables({n}, map[Lower(n) := n]);
    assert AddEntries(t0, [Str(n)]) == t1 by {
      assert [Str(n)][..0] == [];
    }
    var jobs := [Job(Entries([Str(n)]))];
    assert Readable(jobs) == [Entries([Str(n)])];
    assert AddJobs(t0, [Entries([Str(n)])]) == t1 by {
      assert [Entries([Str(n)])][..0] == [];
    }
    var t2 := AddAlias(t1, (key, v));
    assert AddAliases(t1, [(key, v)]) == t2 by {
      assert [(key, v)][..0] == [];
    }
  }

  /** Dataset skills "Go" then "GO", with the alias "golang" to "Go": "Go" is a canonical
      name that normalizes to "GO". */
  lemma CaseVariantsExample()
    ensures var t := Load(Some([Job(Entries([Str("Go"), Str("GO")]))]), [("golang", "Go")]);
      "Go" in t.skills && Lower("Go") in t.lower && t.lower[Lower("Go")] == "GO"
  {
    GoFacts();
    CaseVariantsWin("Go", "GO", "golang");
  }

  /** The dataset skill "JS", with the alias "js" to "JavaScript": "JS" is a canonical name
      that normalizes to "JavaScript". */
  lemma AliasShadowsNameExample()
    ensures var t := Load(Some([Job(Entries([Str("JS")]))]), [("js", "JavaScript")]);
      "JS" in t.skills && Lower("JS") in t.lower && t.lower[Lower("JS")] == "JavaScript"
  {
    JsFacts();
    AliasShadowsName("JS", "js", "JavaScript");
  }

  lemma GoFacts()
    ensures Strip("Go") == "Go" && Strip("GO") == "GO"
    ensures Lower("Go") == Lower("GO") && Lower("golang") != Lower("Go")
  {
    StripOfStripped("Go");
    StripOfStripped("GO");
    assert Lower("Go")[1] == Lower("GO")[1];
    assert |Lower("golang")| == 6;
  }

  lemma JsFacts()
    ensures Strip("JS") == "JS"
    ensures Lower("js") == Lower("JS") && Lower("JavaScript") != Lower("JS")
  {
    StripOfStripped("JS");
    assert Lower("js")[0] == Lower("JS")[0] && Lower("js")[1] == Lower("JS")[1];
    assert |Lower("JavaScript")| == 10;
  }

  /** Under the hypotheses of `LoadSelfBound`, every canonical name that is its own folded
      key normalizes to itself. */
  lemma SkillsNormalizeToSelf(tax: SkillTaxonomy, data: Option<seq<Job>>, aliases: seq<(Name, Name)>, names: set<string>)
    requires Tables(tax.skillsSet, tax.lowerMap) == Load(data, aliases)
    requires data.Some? ==> NamesWithin(Readable(data.value), names)
    requires Agrees(names, aliases)
    ensures forall c :: c in tax.Skills() && Fold(c) == Lower(c) ==> tax.Normalize(c) == Some(c)
  {
    LoadSelfBound(data, aliases, names);
    LoadConsistent(data, aliases);
    forall c | c in tax.Skills() && Fold(c) == Lower(c) ensures tax.Normalize(c) == Some(c) {
      NormalizeBound(tax, c);
    }
  }

  /** Under the same hypotheses, with a dataset the loop gets through, each alias value that
      is its own folded key normalizes to itself. */
  lemma AliasValueNormalizes(tax: SkillTaxonomy, data: seq<Job>, aliases: seq<(Name, Name)>, names: set<string>, i: nat)
    requires Tables(tax.skillsSet, tax.lowerMap) == Load(Some(data), aliases)
    requires forall j :: 0 <= j < |data| ==> data[j].Job?
    requires NamesWithin(Readable(data), names) && Agrees(names, aliases)
    requires i < |aliases| && Fold(aliases[i].1) == Lower(aliases[i].1)
    ensures tax.Normalize(aliases[i].1).Some? && tax.Normalize(aliases[i].1).value == aliases[i].1
  {
    AliasValueSelfBound(data, aliases, names, i);
    NormalizeBound(tax, aliases[i].1);
  }

  lemma AliasValueSelfBound(data: seq<Job>, aliases: seq<(Name, Name)>, names: set<string>, i: nat)
    requires forall j :: 0 <= j < |data| ==> data[j].Job?
    requires NamesWithin(Readable(data), names) && Agrees(names, aliases) && i < |aliases|
    ensures aliases[i].1 in Load(Some(data), aliases).skills && SelfBound(Load(Some(data), aliases))
  {
    var read := AddJobs(Tables({}, map[]), Readable(data));
    assert |Readable(data)| == |data|;
    AliasValueLoaded(read, aliases, i);
    LoadSelfBound(Some(data), aliases, names);
  }

  /** A name bound to itself under its folded key normalizes to itself. */
  lemma NormalizeBound(tax: SkillTaxonomy, v: string)
    requires v != [] && v in tax.skillsSet && SelfBound(Tables(tax.skillsSet, tax.lowerMap)) && Fold(v) == Lower(v)
    ensures tax.Normalize(v) == Some(v)
  {
    assert Lower(v) in tax.lowerMap;
  }

  /** With a coherent alias table, every alias key ends up bound to its own value, whatever
      the dataset bound it to before. */
  lemma {:induction false} AliasWins(t: Tables, aliases: seq<(Name, Name)>, i: nat)
    requires Coherent(aliases) && i < |aliases|
    ensures Lower(aliases[i].0) in AddAliases(t, aliases).lower
    ensures AddAliases(t, aliases).lower[Lower(aliases[i].0)] == aliases[i].1
  {
    var n := |aliases| - 1;
    var prefix := aliases[..n];
    assert AddAliases(t, aliases) == AddAlias(AddAliases(t, prefix), aliases[n]);
    if i < n {
      assert Coherent(prefix) by {
        forall p, q | 0 <= p < |prefix| && 0 <= q < |prefix| ensures prefix[p] == aliases[p] && prefix[q] == aliases[q] { }
      }
      AliasWins(t, prefix, i);
      assert prefix[i] == aliases[i];
      AliasKept(AddAliases(t, prefix), aliases[n], Lower(aliases[i].0), aliases[i].1);
    } else {
      AliasBound(AddAliases(t, prefix), aliases[n]);
    }
  }

  /** One alias step leaves a binding alone, unless it rebinds the key to the same value. */
  lemma AliasKept(t: Tables, a: (Name, Name), key: string, v: Name)
    requires key in t.lower && t.lower[key] == v
    requires Lower(a.0) == key ==> a.1 == v
    requires Lower(a.1) == key ==> a.1 == v
    ensures key in AddAlias(t, a).lower && AddAlias(t, a).lower[key] == v
  {
  }

  /** One alias step binds its key to its value. */
  lemma AliasBound(t: Tables, a: (Name, Name))
    ensures Lower(a.0) in AddAlias(t, a).lower && AddAlias(t, a).lower[Lower(a.0)] == a.1
  {
  }

  // ---------------------------------------------------------------------------
  // The service object

  /** `SkillTaxonomy`: the two lookup structures are filled once, by the constructor. */
  class SkillTaxonomy {
    var skillsSet: set<string>
    var lowerMap: map<string, string>

    predicate Valid()
      reads this
    {
      Consistent(Tables(skillsSet, lowerMap))
    }

    /** `__init__` and `_load_skills`, given the parsed dataset. */
    constructor (data: Option<seq<Job>>)
      ensures Tables(skillsSet, lowerMap) == Load(data, SkillAliases)
      ensures Valid()
    {
      skillsSet := {};
      lowerMap := map[];
      new;
      LoadConsistent(data, SkillAliases);
      if data.Some? {
        var complete := LoadJobs(data.value);
        if complete {
          LoadAliases(SkillAliases);
        }
      }
    }

    /** The dataset pass of `_load_skills` (lines 216-223), which stops at the first
        element that raises and reports whether it got through them all. */
    method LoadJobs(data: seq<Job>) returns (complete: bool)
      modifies this
      ensures Tables(skillsSet, lowerMap) == AddJobs(old(Tables(skillsSet, lowerMap)), Readable(data))
      ensures complete <==> |Readable(data)| == |data|
    {
      ghost var start := Tables(skillsSet, lowerMap);
      ghost var jobs := Readable(data);
      var j := 0;
      while j < |data| && data[j].Job?
        invariant 0 <= j <= |jobs|
        invariant Tables(skillsSet, lowerMap) == AddJobs(start, jobs[..j])
      {
        assert j < |jobs| && jobs[j] == data[j].skills;
        assert jobs[..j + 1][..j] == jobs[..j];
        if data[j].skills.Entries? {
          var entries := data[j].skills.entries;
          var k := 0;
          while k < |entries|
            invariant 0 <= k <= |entries|
            invariant Tables(skillsSet, lowerMap) == AddEntries(AddJobs(start, jobs[..j]), entries[..k])
          {
            assert entries[..k + 1][..k] == entries[..k];
            var e := entries[k];
            if e.Str? && Strip(e.s) != [] {
              var canonical := Strip(e.s);
              skillsSet := skillsSet + {canonical};
              lowerMap := lowerMap[Lower(canonical) := canonical];
            }
            k := k + 1;
          }
          assert entries[..k] == entries;
        }
        j := j + 1;
      }
      assert j == |jobs|;
      assert jobs[..j] == jobs;
      complete := j == |data|;
    }

    /** The alias pass of `_load_skills` (lines 226-231). */
    method LoadAliases(aliases: seq<(Name, Name)>)
      modifies this
      ensures Tables(skillsSet, lowerMap) == AddAliases(old(Tables(skillsSet, lowerMap)), aliases)
    {
      ghost var start := Tables(skillsSet, lowerMap);
      var i := 0;
      while i < |aliases|
        invariant 0 <= i <= |aliases|
        invariant Tables(skillsSet, lowerMap) == AddAliases(start, aliases[..i])
      {
        assert aliases[..i + 1][..i] == aliases[..i];
        var (alias, canonical) := aliases[i];
        lowerMap := lowerMap[Lower(alias) := canonical];
        if canonical !in skillsSet {
          skillsSet := skillsSet + {canonical};
          lowerMap := lowerMap[Lower(canonical) := canonical];
        }
        i := i + 1;
      }
      assert aliases[..i] == aliases;
    }

    /** The `skills` property: a copy of the canonical names. */
    function Skills(): (r: set<string>)
      reads this
      ensures Valid() ==> "" !in r
      ensures Valid() ==> forall c :: c in r && Fold(c) == Lower(c) ==> IsKnownSkill(c)
    {
      skillsSet
    }

    /** The `skill_count` property. */
    function SkillCount(): (n: nat)
      reads this
      ensures n == |Skills()|
    {
      |skillsSet|
    }

    /** `normalize`: the map entry under the stripped, lowercased, whitespace-collapsed
        form; nothing for the empty string. */
    function Normalize(skill: string): (r: Option<string>)
      reads this
      ensures skill == [] ==> r == None
      ensures Valid() ==> (r.Some? <==> Fold(skill) in lowerMap)
      ensures r.Some? ==> Fold(skill) in lowerMap && r.value == lowerMap[Fold(skill)]
      ensures Valid() && r.Some? ==> r.value in skillsSet && r.value != ""
    {
      if skill == [] then None
      else
        var cleaned := Fold(skill);
        if cleaned in lowerMap then Some(lowerMap[cleaned]) else None
    }

    /** `is_known_skill`. */
    function IsKnownSkill(skill: string): (known: bool)
      reads this
      ensures known <==> Normalize(skill).Some?
      ensures Valid() ==> (known <==> Fold(skill) in lowerMap)
    {
      Normalize(skill).Some?
    }

    /** `get_canonical`: the canonical name and `true` when the skill is known, otherwise the
        stripped input and `false`. */
    function GetCanonical(skill: string): (r: (string, bool))
      reads this
      ensures Valid() ==> (r.1 <==> IsKnownSkill(skill))
      ensures r.1 ==> Normalize(skill) == Some(r.0)
      ensures !r.1 ==> r.0 == Strip(skill)
      ensures Valid() && r.1 ==> r.0 in Skills()
    {
      var canonical := Normalize(skill);
      if canonical.Some? && canonical.value != "" then (canonical.value, true)
      else (Strip(skill), false)
    }
  }

  // ---------------------------------------------------------------------------
  // Properties of `normalize`

  /** Case does not matter. */
  lemma NormalizeIgnoresCase(tax: SkillTaxonomy, s: string)
    ensures tax.Normalize(Lower(s)) == tax.Normalize(s)
  {
    FoldIgnoresCase(s);
  }

  /** Surrounding whitespace does not matter. */
  lemma NormalizeIgnoresSurroundingSpace(tax: SkillTaxonomy, s: string)
    requires tax.Valid()
    ensures tax.Normalize(Strip(s)) == tax.Normalize(s)
  {
    FoldIgnoresSurroundingSpace(s);
    if Strip(s) == [] {
      var _ := StripShape(s);
      FoldEmpty(s);
    }
  }

  /** The length of a whitespace run does not matter. */
  lemma NormalizeIgnoresRunLength(tax: SkillTaxonomy, s: string)
    ensures tax.Normalize(Collapse(s)) == tax.Normalize(s)
  {
    FoldIgnoresRunLength(s);
  }

  /** A blank skill is never known. */
  lemma BlankIsUnknown(tax: SkillTaxonomy, s: string)
    requires tax.Valid() && AllSpace(s)
    ensures !tax.IsKnownSkill(s)
  {
    FoldEmpty(s);
  }

  /** After loading with a coherent alias table, any spelling that folds to an alias key
      normalizes to that alias's value, whatever the dataset held. */
  lemma AliasResolves(tax: SkillTaxonomy, data: seq<Job>, aliases: seq<(Name, Name)>, i: nat, x: string)
    requires Tables(tax.skillsSet, tax.lowerMap) == Load(Some(data), aliases)
    requires forall j :: 0 <= j < |data| ==> data[j].Job?
    requires Coherent(aliases) && i < |aliases| && x != [] && Fold(x) == Lower(aliases[i].0)
    ensures tax.Normalize(x).Some? && tax.Normalize(x).value == aliases[i].1
    ensures aliases[i].1 in tax.Skills()
  {
    var read := AddJobs(Tables({}, map[]), Readable(data));
    AliasWins(read, aliases, i);
    AliasValueLoaded(read, aliases, i);
  }
}
