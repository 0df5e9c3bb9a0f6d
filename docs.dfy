/**
 * The opaque Lucene collaborators, reduced to what the library relies on:
 * a document is a map from field name to its string value tagged stored /
 * tokenized, a term is a field name with a text, and an index reader is a
 * snapshot of the committed documents with an identity.
 */
module Docs {
  import opened Wrappers

  datatype DocField = DocField(value: string, stored: bool, tokenized: bool)

  type Document = map<string, DocField>

  /** A Lucene StringField (untokenized) or TextField (tokenized) with its name. */
  datatype IndexField = IndexField(name: string, field: DocField)

  datatype Term = Term(field: string, text: string)

  /** Document.get: the string value under a name, or null. */
  function Get(doc: Document, name: string): (r: Option<string>)
    ensures r.Some? <==> name in doc
    ensures r.Some? ==> r.value == doc[name].value
  {
    if name in doc then Some(doc[name].value) else None
  }

  /** The terms the index holds for a document, after analysis: left abstract, as Lucene's analyzers are. */
  type Indexing = Document -> set<Term>

  /** An index reader: `id` stands for object identity, `docs` for what it can see. */
  datatype Reader = Reader(id: nat, docs: seq<Document>)
}
