/** The weighted edge lists that the graph algorithms are given. */
module Edges {
  datatype Edge = Edge(src: nat, dst: nat, weight: real)
}
