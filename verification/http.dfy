/** The part of a Fiber response the handlers decide: status, body,
    request locals handed to the templates, and a redirect target. */
module Http {
  import opened Outcomes

  const StatusOK := 200
  const StatusFound := 302
  const StatusForbidden := 403
  const StatusNotFound := 404
  const StatusInternalServerError := 500

  /** The templates a handler can render. */
  datatype View = IndexView | ErrorView | NotFoundView

  datatype Body =
    | NoBody
    | Json(fields: map<string, string>)
    | Text(text: string)
    | Page(view: View)

  datatype Response = Response(
    status: int,
    body: Body,
    locals: map<string, string>,
    location: Option<string>)

  /** `c.SendStatus(code)` on an empty body: the body becomes the status
      text. */
  function SendStatus(code: int): Response {
    Response(code, Text(StatusText(code)), map[], None)
  }

  function StatusText(code: int): string {
    match code
    case 200 => "OK"
    case 302 => "Found"
    case 403 => "Forbidden"
    case 404 => "Not Found"
    case 500 => "Internal Server Error"
    case _ => ""
  }

  /** `c.Redirect(location)` with Fiber's default status, 302 Found. */
  function Redirect(locals: map<string, string>, location: string): Response {
    Response(StatusFound, NoBody, locals, Some(location))
  }

  /** `views.Render(c, view, templ.WithStatus(code))`. */
  function Render(locals: map<string, string>, view: View, code: int): Response {
    Response(code, Page(view), locals, None)
  }
}
