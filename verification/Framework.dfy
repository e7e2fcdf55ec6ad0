/** The bounds the scheduler framework sets for the score of a node. */
module Framework {
  const MIN_NODE_SCORE := 0
  const MAX_NODE_SCORE := 100
}
