/** Names that several parts of the program share. */
module Agents {

  /** AllAgents, by name. */
  const AGENTS: set<string> := {"claude", "gemini", "codex", "hermes", "hermes-local"}

  /** The container of the local-model sidecar. */
  const OLLAMA: string := "smithjail-ollama"
}
