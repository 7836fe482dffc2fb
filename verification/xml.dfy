/** The XML element tree that call markup is read into and that API
    responses are written as. Lexing and serialisation are not modelled. */
module Xml {
  import opened Wrappers

  /** One element: tag, attributes, text (absent for `<Play/>`) and child
      elements in document order. */
  datatype Element = Element(
    tag: string,
    attrs: map<string, string>,
    text: Option<string>,
    children: seq<Element>)
}
