/**
 * Sesion: a login session with an expiry instant and a state. Closing and
 * expiring both record an end instant; "active" and "expired" compare the
 * clock with the expiry instant strictly, so at the expiry instant itself
 * a session is neither.
 */
module SesionEntity {
  import opened Common

  datatype EstadoSesion = ACTIVA | CERRADA | EXPIRADA
  {
    function Valor(): string {
      match this
      case ACTIVA => "activa"
      case CERRADA => "cerrada"
      case EXPIRADA => "expirada"
    }
  }

  /** estaActiva(): still open and the clock is strictly before the expiry. */
  predicate ActivaAt(estado: EstadoSesion, fechaExpiracion: Instant, now: Instant) {
    estado == ACTIVA && now < fechaExpiracion
  }

  /** haExpirado(): the clock is strictly after the expiry, whatever the state. */
  predicate ExpiradaAt(fechaExpiracion: Instant, now: Instant) {
    now > fechaExpiracion
  }

  /**
   * The two checks never both hold, exactly at the expiry instant neither
   * does, and an open session is one or the other at every other instant.
   */
  lemma ActiveAndExpiredDisjoint(estado: EstadoSesion, fechaExpiracion: Instant, now: Instant)
    ensures !(ActivaAt(estado, fechaExpiracion, now) && ExpiradaAt(fechaExpiracion, now))
    ensures now == fechaExpiracion ==> !ActivaAt(estado, fechaExpiracion, now) && !ExpiradaAt(fechaExpiracion, now)
    ensures estado == ACTIVA && now != fechaExpiracion ==>
              ActivaAt(estado, fechaExpiracion, now) != ExpiradaAt(fechaExpiracion, now)
  {
  }

  class Sesion {
    var fechaExpiracion: Instant
    var fechaInicio: Instant
    var fechaFin: Option<Instant>
    var estado: EstadoSesion

    /** A new session expiring at `fechaExpiracion`: started now, open, not ended. */
    constructor (fechaExpiracion: Instant, now: Instant)
      ensures this.fechaExpiracion == fechaExpiracion && fechaInicio == now
      ensures estado == ACTIVA && fechaFin.None?
      ensures EstaActiva(now) <==> now < fechaExpiracion
    {
      this.fechaExpiracion := fechaExpiracion;
      fechaInicio := now;
      fechaFin := None;
      estado := ACTIVA;
    }

    predicate EstaActiva(now: Instant)
      reads this
    {
      ActivaAt(estado, fechaExpiracion, now)
    }

    predicate HaExpirado(now: Instant)
      reads this
    {
      ExpiradaAt(fechaExpiracion, now)
    }

    /** cerrarSesion(): closed at `now`; never active again, whatever the clock says. */
    method CerrarSesion(now: Instant)
      modifies this
      ensures estado == CERRADA && fechaFin == Some(now)
      ensures fechaExpiracion == old(fechaExpiracion) && fechaInicio == old(fechaInicio)
      ensures forall t :: !EstaActiva(t)
      ensures forall t :: HaExpirado(t) == old(HaExpirado(t))
    {
      estado := CERRADA;
      fechaFin := Some(now);
    }

    /** expirar(): expired at `now`; never active again, whatever the clock says. */
    method Expirar(now: Instant)
      modifies this
      ensures estado == EXPIRADA && fechaFin == Some(now)
      ensures fechaExpiracion == old(fechaExpiracion) && fechaInicio == old(fechaInicio)
      ensures forall t :: !EstaActiva(t)
      ensures forall t :: HaExpirado(t) == old(HaExpirado(t))
    {
      estado := EXPIRADA;
      fechaFin := Some(now);
    }
  }
}
