/**
 * Usuario: the login-security part of a user, a failed-attempt counter
 * with the instant of the last failure, and a lock instant whose presence
 * is the lock. The counter is a Java `Integer`, so its increment wraps
 * from the largest `int` to the smallest.
 */
module UsuarioEntity {
  import opened Common

  const Int32Max: int := 0x7FFF_FFFF
  const Int32Min: int := -0x8000_0000

  predicate IsInt32(n: int) {
    Int32Min <= n <= Int32Max
  }

  /** `n++` on a Java int: the successor modulo 2^32, kept in the signed range. */
  function Int32Increment(n: int): (m: int)
    requires IsInt32(n)
    ensures IsInt32(m)
    ensures (m - (n + 1)) % 0x1_0000_0000 == 0
    ensures n < Int32Max ==> m > n
  {
    if n == Int32Max then Int32Min else n + 1
  }

  /**
   * The counter after `k` failures in a row, starting from `n`: exactly
   * `n + k` as long as that stays within the int range.
   */
  function AfterFailuresFrom(n: int, k: nat): (m: int)
    requires IsInt32(n)
    ensures IsInt32(m)
    ensures n + k <= Int32Max ==> m == n + k
  {
    if k == 0 then n else Int32Increment(AfterFailuresFrom(n, k - 1))
  }

  /** The counter after `k` failures in a row, starting from zero. */
  function AfterFailures(k: nat): (n: int)
    ensures IsInt32(n)
  {
    AfterFailuresFrom(0, k)
  }

  /** Up to the largest int, the counter is exactly the number of failures. */
  lemma CounterCountsFailures(k: nat)
    requires k <= Int32Max
    ensures AfterFailures(k) == k
  {
    assert AfterFailures(k) == AfterFailuresFrom(0, k);
  }

  /** One failure more than the largest int wraps the counter to a negative value. */
  lemma CounterWraps()
    ensures AfterFailures(Int32Max + 1) == Int32Min
  {
    CounterCountsFailures(Int32Max);
  }

  datatype EstadoUsuario = ACTIVO | INACTIVO
  {
    function Valor(): string {
      match this
      case ACTIVO => "activo"
      case INACTIVO => "inactivo"
    }
  }

  class Usuario {
    var estado: EstadoUsuario
    var dosFactorActivo: bool
    var intentosFallidosSesion: int
    var fechaUltimoIntentoFallido: Option<Instant>
    var fechaBloqueoSesion: Option<Instant>
    var fechaUltimoCambioContrasena: Instant
    var requiereCambioContrasena: bool

    ghost predicate Valid()
      reads this
    {
      IsInt32(intentosFallidosSesion)
    }

    /** A new user: active, 2FA off, no failures, unlocked, password changed now and not due. */
    constructor (now: Instant)
      ensures Valid()
      ensures estado == ACTIVO && !dosFactorActivo && intentosFallidosSesion == 0
      ensures fechaUltimoIntentoFallido.None? && !EstaBloqueado()
      ensures fechaUltimoCambioContrasena == now && !requiereCambioContrasena
    {
      estado := ACTIVO;
      dosFactorActivo := false;
      intentosFallidosSesion := 0;
      fechaUltimoIntentoFallido := None;
      fechaBloqueoSesion := None;
      fechaUltimoCambioContrasena := now;
      requiereCambioContrasena := false;
    }

    /** estaBloqueado(): a lock instant is recorded. */
    predicate EstaBloqueado()
      reads this
    {
      fechaBloqueoSesion.Some?
    }

    /** One more failure, recorded at `now`; the lock is left as it is. */
    method IncrementarIntentosFallidos(now: Instant)
      requires Valid()
      modifies this
      ensures Valid()
      ensures intentosFallidosSesion == Int32Increment(old(intentosFallidosSesion))
      ensures old(intentosFallidosSesion) < Int32Max ==> intentosFallidosSesion == old(intentosFallidosSesion) + 1
      ensures fechaUltimoIntentoFallido == Some(now)
      ensures fechaBloqueoSesion == old(fechaBloqueoSesion) && EstaBloqueado() == old(EstaBloqueado())
      ensures estado == old(estado) && dosFactorActivo == old(dosFactorActivo)
      ensures fechaUltimoCambioContrasena == old(fechaUltimoCambioContrasena)
      ensures requiereCambioContrasena == old(requiereCambioContrasena)
    {
      intentosFallidosSesion := Int32Increment(intentosFallidosSesion);
      fechaUltimoIntentoFallido := Some(now);
    }

    /** Back to no failures, with both failure instants cleared: the user is unlocked. */
    method ResetearIntentosFallidos()
      modifies this
      ensures Valid()
      ensures intentosFallidosSesion == 0 && fechaUltimoIntentoFallido.None? && !EstaBloqueado()
      ensures estado == old(estado) && dosFactorActivo == old(dosFactorActivo)
      ensures fechaUltimoCambioContrasena == old(fechaUltimoCambioContrasena)
      ensures requiereCambioContrasena == old(requiereCambioContrasena)
    {
      intentosFallidosSesion := 0;
      fechaUltimoIntentoFallido := None;
      fechaBloqueoSesion := None;
    }

    /** Lock the user at `now`; the counter is left as it is. */
    method BloquearPorIntentosFallidos(now: Instant)
      requires Valid()
      modifies this
      ensures Valid()
      ensures EstaBloqueado() && fechaBloqueoSesion == Some(now)
      ensures intentosFallidosSesion == old(intentosFallidosSesion)
      ensures fechaUltimoIntentoFallido == old(fechaUltimoIntentoFallido)
      ensures estado == old(estado) && dosFactorActivo == old(dosFactorActivo)
      ensures fechaUltimoCambioContrasena == old(fechaUltimoCambioContrasena)
      ensures requiereCambioContrasena == old(requiereCambioContrasena)
    {
      fechaBloqueoSesion := Some(now);
    }
  }

  /**
   * A run of failed logins, one `incrementarIntentosFallidos` per instant of
   * `times`: the counter is `AfterFailures(|times|)` (so exactly the number
   * of failures up to the largest int), the last failure's instant is
   * recorded, and failures alone never lock or unlock the user.
   */
  method RegistrarFallos(u: Usuario, times: seq<Instant>)
    requires u.Valid()
    modifies u
    ensures u.Valid()
    ensures u.intentosFallidosSesion == AfterFailuresFrom(old(u.intentosFallidosSesion), |times|)
    ensures old(u.intentosFallidosSesion) + |times| <= Int32Max ==>
              u.intentosFallidosSesion == old(u.intentosFallidosSesion) + |times|
    ensures old(u.intentosFallidosSesion) == 0 ==> u.intentosFallidosSesion == AfterFailures(|times|)
    ensures |times| > 0 ==> u.fechaUltimoIntentoFallido == Some(times[|times| - 1])
    ensures |times| == 0 ==> u.fechaUltimoIntentoFallido == old(u.fechaUltimoIntentoFallido)
    ensures u.EstaBloqueado() == old(u.EstaBloqueado()) && u.fechaBloqueoSesion == old(u.fechaBloqueoSesion)
    ensures u.estado == old(u.estado)
  {
    var i := 0;
    while i < |times|
      invariant 0 <= i <= |times|
      invariant u.Valid()
      invariant u.intentosFallidosSesion == AfterFailuresFrom(old(u.intentosFallidosSesion), i)
      invariant i > 0 ==> u.fechaUltimoIntentoFallido == Some(times[i - 1])
      invariant i == 0 ==> u.fechaUltimoIntentoFallido == old(u.fechaUltimoIntentoFallido)
      invariant u.fechaBloqueoSesion == old(u.fechaBloqueoSesion) && u.estado == old(u.estado)
    {
      u.IncrementarIntentosFallidos(times[i]);
      i := i + 1;
    }
  }
}
