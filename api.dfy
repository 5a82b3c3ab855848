/** The resource, the error record and the HTTP responses shared by every layer. */
module Api {
  import opened Wrappers

  /** Product identifiers are opaque strings (the `:id` route parameter). */
  type Id = string

  /** A stored product; the store's timestamps are represented by its creation order instead. */
  datatype Product = Product(id: Id, nome: string, valor: real)

  const MinNomeLength: nat := 1
  const MaxNomeLength: nat := 255

  /** The data-model invariant of a product: a non-empty name of at most 255 characters and a positive value. */
  predicate ProductValid(p: Product)
  {
    MinNomeLength <= |p.nome| <= MaxNomeLength && p.valor > 0.0
  }

  /** A thrown error as the error handler sees it: `err.name`, `err.code`, `err.message`, `err.stack`. */
  datatype Error = Error(name: string, code: Option<string>, message: string, stack: string)

  /** What a schema check found wrong with one field (or, with an empty path, with the whole body). */
  datatype IssueKind =
    | Missing
    | WrongType
    | TooSmall(message: string)
    | TooBig(message: string)

  datatype Issue = Issue(path: seq<string>, kind: IssueKind)

  /** The `details` member of an error body, when it has one. */
  datatype Details = NoDetails | Issues(issues: seq<Issue>) | Message(text: string)

  /** A JSON response body. */
  datatype Body =
    | Empty
    | ErrorBody(error: string, details: Details)
    | One(product: Product)
    | Many(products: seq<Product>)

  datatype Response = Response(status: nat, body: Body)

  const InvalidDataMessage := "Dados inválidos"
  const ConflictMessage := "Conflito de dados"
  const RecordExistsMessage := "Registro já existe"
  const InternalErrorMessage := "Erro interno do servidor"
  const NotFoundMessage := "Produto não encontrado"
}
