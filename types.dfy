/**
 * The shared data contracts of the studio (types.ts): the pipeline stages, the
 * project description gathered by the interview, the three stage outputs, the
 * pipeline result register, saved projects and interview turns.
 *
 * Free text stays `string`; the string-literal unions of ProjectData become
 * enumerations whose `Label` gives back the literal the application displays.
 */
module Types {

  datatype Option<+T> = None | Some(value: T)

  /** What an opaque call to the language model yields: a value, or a thrown
      error carrying its `message` ("" when the error has no message). */
  datatype Outcome<+T> = Ok(value: T) | Fail(message: string)

  datatype PipelineStage =
    | Idle
    | Onboarding
    | Structure
    | Architecture
    | MasterPrompt
    | Completed
    | Error

  datatype ProjectScope = Prototype | Mvp | FullScaleApp | EnterpriseSystem
  {
    function Label(): string {
      match this
      case Prototype => "Prototyp"
      case Mvp => "MVP"
      case FullScaleApp => "Full-Scale App"
      case EnterpriseSystem => "Enterprise System"
    }
  }

  datatype Complexity = Simple | Moderate | High
  {
    function Label(): string {
      match this
      case Simple => "Einfach (CRUD)"
      case Moderate => "Mittelschwer (Interaktiv)"
      case High => "Hoch (Komplex/KI/Echtzeit)"
    }
  }

  datatype Ide = Cursor | Windsurf | VsCodeCopilot | VsCodeCline | OtherIde
  {
    function Label(): string {
      match this
      case Cursor => "Cursor"
      case Windsurf => "Windsurf"
      case VsCodeCopilot => "VS Code + Copilot"
      case VsCodeCline => "VS Code + Cline/Pear"
      case OtherIde => "Andere"
    }
  }

  datatype PreferredModel = ClaudeSonnet | Gpt4o | GeminiPro | OtherModel
  {
    function Label(): string {
      match this
      case ClaudeSonnet => "Claude 3.5 Sonnet"
      case Gpt4o => "GPT-4o"
      case GeminiPro => "Gemini 3 Pro"
      case OtherModel => "Andere"
    }
  }

  datatype GithubRepo = ExistingRepo | CreateRepo | NoRepo

  datatype Hosting = Vercel | Render | GoogleCloud | Aws | Hetzner | OtherHosting

  datatype TestStrategy = Tdd | IntegrationFocus | MinimalTests | NoTests

  datatype SecurityLevel = StandardSecurity | HighSecurity | PrototypeSecurity

  datatype Ecosystem = GoogleFirebase | MicrosoftAzure | AwsAnthropic | VercelNext | BestOfBreed

  datatype ProjectData = ProjectData(
    title: string,
    description: string,
    targetAudience: string,
    keyFeatures: seq<string>,
    projectScope: ProjectScope,
    complexity: Complexity,
    ide: Ide,
    preferredModel: PreferredModel,
    githubRepo: GithubRepo,
    hostingDeployment: Hosting,
    testStrategy: TestStrategy,
    securityLevel: SecurityLevel,
    ecosystemPreference: Option<Ecosystem>)

  /** The keys of ProjectData, which the interview fills one at a time. */
  datatype Field =
    | Title
    | Description
    | TargetAudience
    | KeyFeatures
    | ProjectScopeField
    | ComplexityField
    | IdeField
    | PreferredModelField
    | GithubRepoField
    | HostingDeploymentField
    | TestStrategyField
    | SecurityLevelField
    | EcosystemPreferenceField

  /** A value stored under a key of a partial ProjectData: the trimmed answer,
      or the feature list for `keyFeatures`. */
  datatype FieldValue = Text(text: string) | List(items: seq<string>)

  /** `Partial<ProjectData>`: the fields answered so far. */
  type PartialProjectData = map<Field, FieldValue>

  datatype Entity = Entity(name: string, description: string, properties: seq<string>)

  datatype SystemModel = SystemModel(
    entities: seq<Entity>,
    relationships: seq<string>,
    userFlows: seq<string>,
    coreLogic: string)

  datatype ApiParameter = ApiParameter(name: string, paramType: string, required: bool, description: string)

  datatype ApiEndpoint = ApiEndpoint(
    httpMethod: string,
    path: string,
    description: string,
    parameters: seq<ApiParameter>,
    response: string)

  datatype TechOption = TechOption(name: string, justification: string)

  datatype TechStack = TechStack(
    frontend: seq<TechOption>,
    backend: seq<TechOption>,
    database: seq<TechOption>,
    additional: seq<string>)

  datatype Guardrails = Guardrails(security: seq<string>, performance: seq<string>, reliability: seq<string>)

  datatype TechnicalArchitecture = TechnicalArchitecture(
    techStack: TechStack,
    folderStructure: string,
    apiEndpoints: seq<ApiEndpoint>,
    securityRequirements: seq<string>,
    guardrails: Guardrails)

  datatype WorkspaceFile = WorkspaceFile(name: string, content: string, description: string, language: string)

  /** The third slot of the result. The declared shape is a bundle of master
      prompt and workspace files; the pipeline actually stores the plain
      master-prompt text that the third generation call returns. */
  datatype Stage3 =
    | MasterPromptText(text: string)
    | WorkspaceBundle(masterPrompt: string, workspaceFiles: seq<WorkspaceFile>)

  datatype PipelineResult = PipelineResult(
    stage1: Option<SystemModel>,
    stage2: Option<TechnicalArchitecture>,
    stage3: Option<Stage3>)

  /** `{}` */
  const EmptyResult := PipelineResult(None, None, None)

  datatype SavedProject = SavedProject(id: string, timestamp: int, data: ProjectData, result: PipelineResult)

  /** `currentField` of an interview turn: a key of ProjectData, or the sentinel. */
  datatype InterviewTarget = Ask(field: Field) | Complete

  datatype InterviewState = InterviewState(
    currentField: InterviewTarget,
    question: string,
    suggestions: Option<seq<string>>)
}
