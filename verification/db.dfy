/** The document store, abstracted: one sequence per collection, in
    insertion order, plus the two foreign functions the handlers call. */
module Db {
  import opened Http
  import opened Schemas

  /** A roadmap document: a domain name and its ordered steps. */
  datatype Roadmap = Roadmap(domain: string, steps: seq<RoadmapStep>)

  /** The whole store. A user's id is its position in `users`: inserting
      appends, so the id an insert hands out is always fresh. */
  datatype Store = Store(
    users: seq<User>,
    roadmaps: seq<Roadmap>,
    progress: seq<Progress>,
    results: seq<AssessmentResult>,
    resumes: seq<Resume>)

  const EmptyStore := Store([], [], [], [], [])

  /** Foreign code the handlers depend on: the password digest (SHA-256 of
      the UTF-8 text, treated as an uninterpreted deterministic function)
      and the parse of a textual object id, `None` when it is malformed. */
  datatype Env = Env(hash: string -> string, parseId: string -> Option<nat>)

  // Query keys of the collections.
  function EmailOf(u: User): string { u.profile.email }
  function DomainOf(r: Roadmap): string { r.domain }
  function OrderOf(s: RoadmapStep): int { s.order }
  function ProgressKey(p: Progress): (string, string) { (p.userId, p.domain) }
  function ResumeOwner(r: Resume): string { r.userId }
}
