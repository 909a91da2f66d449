/**
 * Project plans and the fixed plans the application ships: the three
 * offline plans `api/plan.js` answers with when no API key is configured
 * (the first of which is also the plan the setup page starts from).
 */
module Catalog {
  import opened Text
  import opened Progress
  import opened Json

  datatype Project = Project(
    title: string,
    description: string,
    milestones: seq<Milestone>,
    learningGoals: seq<string>,
    skillsToMaster: seq<string>)

  /** The stored current project (`current_project`), as far as the pages read it: either field may be missing. */
  datatype StoredProject = StoredProject(title: Option<string>, description: Option<string>)

  function Open(title: string, description: string): Milestone {
    Milestone(title, description, false)
  }

  const VotingApp: Project := Project(
    "Decentralized Voting App",
    "A blockchain-based voting system using smart contracts",
    [ Open("Research what a smart contract is", "Learn the fundamentals of smart contracts and how they work on Ethereum"),
      Open("Write a basic smart contract in Solidity", "Create your first smart contract using Solidity programming language"),
      Open("Deploy contract using Remix", "Use Remix IDE to compile and deploy your contract to testnet"),
      Open("Build frontend with Web3.js", "Create a React frontend that interacts with your smart contract"),
      Open("Connect frontend to contract", "Integrate MetaMask and enable full DApp functionality"),
      Open("Write README + LinkedIn post", "Document your project and create a professional showcase post") ],
    [ "Master Smart Contract Development", "Understand Decentralized Governance",
      "Learn Voting Mechanisms", "Build Real-World DApp" ],
    [ "Solidity", "Web3.js", "React", "Ethereum", "MetaMask" ])

  const NftMarketplace: Project := Project(
    "NFT Marketplace",
    "A decentralized marketplace for buying and selling NFTs",
    [ Open("Learn NFT basics", "Understand what NFTs are and how they work on blockchain"),
      Open("Create NFT smart contract", "Build a Solidity contract for minting and managing NFTs"),
      Open("Add marketplace functionality", "Implement buying, selling, and bidding features"),
      Open("Build React frontend", "Create a user-friendly interface for the marketplace"),
      Open("Integrate IPFS storage", "Store NFT metadata on decentralized storage"),
      Open("Deploy and document", "Deploy to testnet and create portfolio documentation") ],
    [ "Master NFT Standards", "Learn Marketplace Economics",
      "Understand Digital Ownership", "Build Real-World DApp" ],
    [ "Solidity", "IPFS", "React", "Ethereum", "NFT" ])

  const YieldFarming: Project := Project(
    "DeFi Yield Farming App",
    "A decentralized finance application for yield farming",
    [ Open("Understand DeFi concepts", "Learn about liquidity pools, yield farming, and AMMs"),
      Open("Create token contracts", "Build ERC-20 tokens for the farming protocol"),
      Open("Implement staking mechanism", "Create smart contracts for staking and rewards"),
      Open("Build user interface", "Create a React app for interacting with the protocol"),
      Open("Add liquidity features", "Implement adding and removing liquidity functionality"),
      Open("Test and deploy", "Comprehensive testing and deployment to testnet") ],
    [ "Understand DeFi Protocols", "Learn Yield Farming",
      "Master Liquidity Concepts", "Build Real-World DApp" ],
    [ "Solidity", "DeFi", "Web3.js", "Ethereum", "React" ])

  /** The offline plans, in the order `Math.random` indexes them. */
  const MockProjects: seq<Project> := [VotingApp, NftMarketplace, YieldFarming]

  /** A fresh plan: six steps, none of them done. */
  predicate FreshPlan(p: Project) {
    |p.milestones| == 6 && forall i :: 0 <= i < |p.milestones| ==> !p.milestones[i].complete
  }

  /** The plan at index `pick` of the offline plans. */
  function MockProject(pick: nat): (p: Project)
    requires pick < |MockProjects|
    ensures FreshPlan(p)
    ensures p.title != "" && p.description != ""
  {
    MockProjects[pick]
  }

  // ---------------------------------------------------------------------------
  // As JSON
  // ---------------------------------------------------------------------------

  function Strings(xs: seq<string>): JValue {
    JArr(seq(|xs|, i requires 0 <= i < |xs| => JStr(xs[i])))
  }

  /** `{ title, description, complete }` */
  function MilestoneJson(m: Milestone): JValue {
    JObj(map["title" := JStr(m.title), "description" := JStr(m.description), "complete" := JBool(m.complete)])
  }

  function MilestonesJson(ms: seq<Milestone>): (v: JValue)
    ensures v.JArr? && |v.items| == |ms|
    ensures forall i :: 0 <= i < |ms| ==> v.items[i] == MilestoneJson(ms[i])
  {
    JArr(seq(|ms|, i requires 0 <= i < |ms| => MilestoneJson(ms[i])))
  }

  /** A plan as the plan endpoint sends it. */
  function ProjectJson(p: Project): JValue {
    JObj(map[
      "title" := JStr(p.title),
      "description" := JStr(p.description),
      "milestones" := MilestonesJson(p.milestones),
      "learningGoals" := Strings(p.learningGoals),
      "skillsToMaster" := Strings(p.skillsToMaster)])
  }

  /** Reads a milestone back: an object with string `title` and `description` and a boolean `complete`. */
  function MilestoneFromJson(v: JValue): Option<Milestone> {
    match (Get(v, "title"), Get(v, "description"), Get(v, "complete"))
    case (Some(JStr(t)), Some(JStr(d)), Some(JBool(c))) => Some(Milestone(t, d, c))
    case _ => None
  }

  /** Writing a milestone and reading it back gives the same milestone. */
  lemma MilestoneJsonRoundTrip(m: Milestone)
    ensures MilestoneFromJson(MilestoneJson(m)) == Some(m)
  {
  }
}
