/** The data contracts shared by the backend and the frontend. */
module Shared {
  import opened Wrappers

  /** A JSON value, as `JSON.parse` produces it and request bodies carry it. */
  datatype Json =
    | JNull
    | JBool(b: bool)
    | JNumber(n: real)
    | JString(s: string)
    | JArray(elements: seq<Json>)
    | JObject(members: seq<(string, Json)>)

  /** Free-form document metadata (`Record<string, any>`; nothing checks its
      shape at run time, so any JSON value can stand here). */
  type Metadata = Json

  /** An embedding vector. */
  type Embedding = seq<real>

  /** A document: id and content always present, metadata and embedding optional. */
  datatype Document = Document(
    id: string,
    content: string,
    metadata: Option<Metadata>,
    embedding: Option<Embedding>)

  /** One document paired with one score. */
  datatype SearchResult = SearchResult(document: Document, score: real)

  /** The role of a chat turn: exactly one of `user` and `assistant`. */
  datatype Role = User | Assistant

  /** A turn of the caller-supplied history (timestamp in milliseconds). */
  datatype ChatMessage = ChatMessage(id: string, role: Role, content: string, timestamp: int)

  /** An answer, the ordered sources it was grounded on, and a message id. */
  datatype ChatResponse = ChatResponse(answer: string, sources: seq<SearchResult>, messageId: string)

  /** A search request; `limit` is optional. */
  datatype SearchRequest = SearchRequest(query: string, limit: Option<int>)

  /** A chat request; `history` is optional. */
  datatype ChatRequest = ChatRequest(message: string, history: Option<seq<ChatMessage>>)
}
