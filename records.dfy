/** The documents of the `blogs` database as the handlers read and write
    them. A field that a document may lack is an `Option`; `_id` is kept in
    its string form, and a stored `Date` is its millisecond timestamp. */
module Records {
  import opened Wrappers

  /** `geoInfo` of a visitor log entry, as shaped from an ip-api reply. */
  datatype GeoInfo = GeoInfo(country: Option<string>, countryCode: Option<string>,
                             region: Option<string>, city: Option<string>)

  /** A document of `visitor_logs`. */
  datatype VisitorLog = VisitorLog(id: string, timestamp: int, ip: Option<string>,
                                   userAgent: Option<string>, path: Option<string>,
                                   userId: Option<string>, geoInfo: Option<GeoInfo>)

  /** A document of `users`. */
  datatype User = User(id: string, name: Option<string>, username: Option<string>,
                       email: Option<string>, password: Option<string>,
                       role: Option<string>, status: Option<string>,
                       avatar: Option<string>, image: Option<string>,
                       permission: Option<string>, createdAt: int,
                       updatedAt: Option<int>)

  /** A document of `articles`. `status` and `viewCount` are set by other
      routes; the create route stores neither. */
  datatype Article = Article(id: string, title: string, summary: string,
                             tags: seq<string>, content: string, createdAt: int,
                             status: Option<string>, viewCount: Option<nat>)

  datatype Author = Author(name: string)

  /** A document of `comments`. */
  datatype Comment = Comment(id: string, postId: string, content: string,
                             author: Author, status: string,
                             parentId: Option<string>, userId: Option<string>,
                             createdAt: int, updatedAt: int)

  /** Sort keys of the `createdAt: -1` orderings. */
  function ArticleCreated(a: Article): int { a.createdAt }
  function CommentCreated(c: Comment): int { c.createdAt }
  function UserCreated(u: User): int { u.createdAt }
}
