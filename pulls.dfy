/**
 * A pull request as the GitHub API returns it, reduced to the fields the drafter reads: the title,
 * the names of its labels, the author's login, the html url, the merge time and the state.
 */
module Pulls {
  datatype Pull = Pull(
    title: string,
    labels: seq<string>,
    login: string,
    url: string,
    mergedAt: int,
    state: string)

  /** `(a & b).any?` on two lists of label names: some name occurs in both. */
  predicate SharesLabel(a: seq<string>, b: seq<string>) {
    exists l :: l in a && l in b
  }

  /** The `merged_at` sort key. */
  function MergedAt(p: Pull): int {
    p.mergedAt
  }

  /** `state == 'closed'`. */
  predicate IsClosed(p: Pull) {
    p.state == "closed"
  }
}
