/** The client errors the REST resources raise (RestAPIMessages), with their arguments. */
module RestMessages {

  datatype RestError =
    /** missingQueryParams(params): 400 Bad Request, message id JBERET070000 */
    | MissingQueryParams(params: string)
    /** invalidQueryParamValue(paramKey, paramValue): 400 Bad Request, message id JBERET070001 */
    | InvalidQueryParamValue(key: string, value: string)
    /** notFoundException(key, value): 404 Not Found, message id JBERET070002 */
    | NotFound(key: string, value: string)
}
