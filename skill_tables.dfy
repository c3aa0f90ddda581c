/** The constant tables of the skill extractor (app/services/skill_extractor.py). */
module SkillTables {

  /** `ANCHOR_WORDS`: context words that vouch for a candidate in an experience section. */
  const AnchorWords: set<string> := {
    "using", "used", "use", "with", "via", "through",
    "built", "building", "developed", "developing",
    "maintained", "managed", "deployed", "shipping",
    "stack", "technologies", "tools", "framework",
    "proficient", "experienced", "knowledge", "skills",
    "platform", "language", "library", "api"
  }

  /** `DENYLIST`: lowercase candidates that are never matched. */
  const Denylist: set<string> := {
    "advanced", "expert", "proficient", "experienced", "strong",
    "knowledge", "understanding", "hands-on", "familiar", "various",
    "excellent", "good", "great", "basic", "intermediate", "senior",
    "junior", "lead", "principal", "manager", "management", "years",
    "time", "working", "work", "projects", "responsible", "duties",
    "role", "team", "member", "collaborated", "programming", "concepts",
    "frameworks", "libraries", "tools", "languages", "platforms", "solutions",
    "applications", "systems", "services", "version", "control", "analysis",
    "design", "development", "implementation", "testing", "deployment",
    "maintenance", "support", "documentation", "communication", "coordination",
    "environment", "methodologies", "practices", "principles", "patterns",
    "css", "cloud", "apis", "api", "database", "databases", "frontend",
    "backend", "devops", "web", "mobile", "software", "engineering"
  }

  /** `ABSTRACTION_RULES` in declaration order: a generic term and the specific terms whose
      presence makes it redundant. */
  const AbstractionRules: seq<(string, set<string>)> := [
    ("cloud", {"aws", "azure", "gcp", "google cloud"}),
    ("css", {"tailwind css", "bootstrap", "sass", "scss"}),
    ("apis", {"rest apis", "grpc", "graphql", "websockets"}),
    ("api", {"rest apis", "grpc", "graphql", "websockets"}),
    ("database", {"postgresql", "mongodb", "mysql", "redis", "sql server"}),
    ("databases", {"postgresql", "mongodb", "mysql", "redis", "sql server"})
  ]

  /** `CANONICAL_SKILLS`: lowercase variants and their standard names. */
  const CanonicalSkills: map<string, string> := map[
    "git" := "Git",
    "github" := "GitHub",
    "gitlab" := "GitLab",
    "bitbucket" := "Bitbucket",
    "javascript" := "JavaScript",
    "js" := "JavaScript",
    "typescript" := "TypeScript",
    "ts" := "TypeScript",
    "node.js" := "Node.js",
    "nodejs" := "Node.js",
    "node" := "Node.js",
    "react" := "React",
    "reactjs" := "React",
    "react.js" := "React",
    "vue" := "Vue.js",
    "vuejs" := "Vue.js",
    "vue.js" := "Vue.js",
    "angular" := "Angular",
    "angularjs" := "Angular",
    "express" := "Express.js",
    "expressjs" := "Express.js",
    "express.js" := "Express.js",
    "python" := "Python",
    "py" := "Python",
    "fastapi" := "FastAPI",
    "django" := "Django",
    "flask" := "Flask",
    "postgresql" := "PostgreSQL",
    "postgres" := "PostgreSQL",
    "mongodb" := "MongoDB",
    "mongo" := "MongoDB",
    "redis" := "Redis",
    "mysql" := "MySQL",
    "aws" := "AWS",
    "amazon web services" := "AWS",
    "azure" := "Azure",
    "microsoft azure" := "Azure",
    "gcp" := "GCP",
    "google cloud" := "GCP",
    "docker" := "Docker",
    "kubernetes" := "Kubernetes",
    "k8s" := "Kubernetes",
    "ci/cd" := "CI/CD",
    "cicd" := "CI/CD",
    "rest apis" := "REST APIs",
    "rest api" := "REST APIs",
    "restful" := "REST APIs",
    "grpc" := "gRPC",
    "graphql" := "GraphQL",
    "websockets" := "WebSockets",
    "websocket" := "WebSockets",
    "event-driven" := "Event-Driven Systems",
    "event driven" := "Event-Driven Systems",
    "authentication" := "Authentication & Authorization",
    "authorization" := "Authentication & Authorization",
    "auth" := "Authentication & Authorization",
    "unit testing" := "Unit Testing",
    "unit tests" := "Unit Testing",
    "scalability" := "Scalability",
    "data structures" := "Data Structures",
    "algorithms" := "Algorithms",
    "dsa" := "Data Structures",
    "rust" := "Rust",
    "c++" := "C++",
    "cpp" := "C++",
    "java" := "Java",
    "go" := "Go",
    "golang" := "Go",
    "tailwind" := "Tailwind CSS",
    "tailwind css" := "Tailwind CSS",
    "tailwindcss" := "Tailwind CSS"
  ]

  /** The tables `_match` and the post-processing consult, as one value; the extractor
      uses `Source`, and the proofs about matching and post-processing hold for any
      tables. */
  datatype Lexicon = Lexicon(
    denylist: set<string>,
    abstractionRules: seq<(string, set<string>)>,
    canonicalSkills: map<string, string>)

  const Source: Lexicon := Lexicon(Denylist, AbstractionRules, CanonicalSkills)
}
