// convertHttpCode: the switch table from the remote HTTP status of the SERPRO
// service to the local result code.

module StatusMapper {
  import opened LocalCodes

  /**
   * Every integer maps to a local code: 200 and 206 to success, 400 to an
   * invalid format, 404 to a rejected subject, and every other status
   * (401 and 500 among them) to a server problem.
   */
  function ConvertHttpCode(code: int): (r: int)
    ensures IsLocalCode(r)
    ensures r == CODE_200_CPF_OK <==> code == 200 || code == 206
    ensures r == CODE_400_INVALID_FORMAT <==> code == 400
    ensures r == CODE_403_SUBJECT_REJECTED <==> code == 404
    ensures r == CODE_500_SERVER_PROBLEM <==> !(code in {200, 206, 400, 404})
  {
    match code
    case 200 => CODE_200_CPF_OK
    case 206 => CODE_200_CPF_OK
    case 400 => CODE_400_INVALID_FORMAT
    case 401 => CODE_500_SERVER_PROBLEM
    case 404 => CODE_403_SUBJECT_REJECTED
    case 500 => CODE_500_SERVER_PROBLEM
    case _ => CODE_500_SERVER_PROBLEM
  }

}
