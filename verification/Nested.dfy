/** Nested lists, as Python code gives them to the dumpers of arrays. */
module NestedLists {

  datatype Nested<B> = Null | Leaf(b: B) | List(es: seq<Nested<B>>)
}
