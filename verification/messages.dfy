/** The user-facing texts the pages show, as the pages spell them. */
module Messages {

  // Field errors of the registration, profile-edit and user forms.
  const UserIdRequired := "아이디는 필수입니다"
  const UserIdLength := "아이디는 4자 이상 50자 이하여야 합니다"
  const UserIdCharset := "아이디는 영문, 숫자, 언더스코어(_)만 사용 가능합니다"
  const NameRequired := "이름은 필수입니다"
  const NameTooLong := "이름은 50자를 초과할 수 없습니다"
  const PasswordRequired := "비밀번호는 필수입니다"
  const PasswordLength := "비밀번호는 6자 이상 100자 이하여야 합니다"
  const PasswordTooShort := "비밀번호는 최소 6자 이상이어야 합니다"
  const GenderRequired := "성별은 필수입니다"
  const PhoneRequired := "전화번호는 필수입니다"
  const PhoneFormat := "전화번호 형식이 올바르지 않습니다 (예: 010-1234-5678)"
  const EmailRequired := "이메일은 필수입니다"
  const EmailFormat := "올바른 이메일 형식이 아닙니다"
  const EmailTooLong := "이메일은 100자를 초과할 수 없습니다"

  // Page-level errors after a failed call.
  const CheckInput := "입력 정보를 확인해주세요."
  const UpdateFailed := "수정에 실패했습니다."
  const NoPermission := "권한이 없습니다. 본인의 정보만 수정할 수 있습니다."
  const UserNotFound := "사용자를 찾을 수 없습니다."
  const ServerError := "서버 오류가 발생했습니다. 잠시 후 다시 시도해주세요."
  const BadCredentials := "아이디 또는 비밀번호가 올바르지 않습니다."
  const NoSuchUser := "존재하지 않는 사용자입니다."
  const LoginFailed := "로그인에 실패했습니다."
}
